/**
 The outer worklist: methods are analysed against the current summaries, what they pass on is added
 to the summaries, and whoever depends on a summary that grew is analysed again.
 */
module Interprocedural {
  import opened Wrappers
  import opened Collections
  import opened Descriptors
  import opened RegisterState
  import opened Transfer
  import opened RegisterFlow
  import opened SummaryTables
  import Chains = TaintChains

  const MAX_RUNS: nat := 100000
  const MAX_FACTS: nat := 100000
  const MAX_FLOWS: nat := 10000

  /** What a reported flow is identified by. */
  datatype FlowKey = FlowKey(method_: string, line: int, sink: string, sourceMethod: string, sourceLine: int,
                             sourceFile: string)

  function KeyOf(k: string, f: Flow): FlowKey {
    FlowKey(k, f.line, f.sink, f.trace.methodKey, f.trace.line, f.trace.file)
  }

  type Dependents = map<string, set<string>>

  function DependentsOf(d: Dependents, k: string): set<string> {
    if k in d then d[k] else {}
  }

  /** Whoever reads a field or calls a method that e mentions is listed as depending on it. */
  ghost predicate Registered(e: Effects, k: string, readers: Dependents, callers: Dependents) {
    && (forall f :: f in e.fieldReads ==> k in DependentsOf(readers, f))
    && (forall m :: m in e.called ==> k in DependentsOf(callers, m))
  }

  /** Who has to be looked at again when a fact is added. */
  function Affected(f: TaintFact, readers: Dependents, callers: Dependents): set<string> {
    match f
    case ParameterFact(k, _, _) => {k}
    case FieldFact(g, _) => DependentsOf(readers, g)
    case ReturnedFact(k, _) => DependentsOf(callers, k)
  }

  /** The whole state of the outer loop. */
  datatype Snapshot = Snapshot(tables: Tables, readers: Dependents, callers: Dependents,
                               worklist: seq<string>, queued: set<string>, seen: set<FlowKey>,
                               facts: nat, limited: bool, warned: bool)

  ghost predicate FlowsSeen(e: Effects, k: string, seen: set<FlowKey>) {
    forall f :: f in e.flows ==> KeyOf(k, f) in seen
  }

  /** Method k depends on nothing it is not registered for, and its analysis was not cut off unnoticed. */
  ghost predicate UpToDate(ms: Methods, s: Snapshot, k: string, budget: nat)
    requires k in ms
  {
    && WellFormed(ms[k].program)
    && Registered(FoundIn(ms, k, s.tables, budget), k, s.readers, s.callers)
    && (s.warned || AnalysisOf(ms, k, s.tables, budget).queue == [])
  }

  /** What it finds is in the tables and among the seen flows, unless a cap was hit. */
  ghost predicate Reflected(ms: Methods, s: Snapshot, k: string, budget: nat)
    requires k in ms && WellFormed(ms[k].program)
  {
    s.limited || (Published(FoundIn(ms, k, s.tables, budget), ms, k, s.tables)
                  && FlowsSeen(FoundIn(ms, k, s.tables, budget), k, s.seen))
  }

  /** Every method that is not waiting, and is not the current one, is up to date and reflected. */
  ghost predicate Progress(ms: Methods, s: Snapshot, current: Option<string>, budget: nat) {
    forall k :: Analysed(ms, k) && k !in s.queued ==>
      current == Some(k) || (UpToDate(ms, s, k, budget) && Reflected(ms, s, k, budget))
  }

  /** The method being processed: what its analysis gave stays true while it is not waiting again. */
  ghost predicate Current(ms: Methods, s: Snapshot, k: string, final: Config, budget: nat) {
    && Analysed(ms, k) && WellFormed(ms[k].program) && Registered(final.found, k, s.readers, s.callers)
    && (k !in s.queued ==> AnalysisOf(ms, k, s.tables, budget) == final)
    && (s.warned || final.queue == [])
    && (s.limited || FlowsSeen(final.found, k, s.seen))
  }

  ghost predicate QueueTidy(s: Snapshot) {
    s.queued == Elements(s.worklist) && Distinct(s.worklist)
  }

  /** f was new, is now recorded, and whoever it affects is waiting. */
  ghost predicate RecordedTo(s: Snapshot, f: TaintFact, s': Snapshot) {
    && !Has(s.tables, f) && s.facts < MAX_FACTS
    && s' == s.(tables := AddFact(s.tables, f), facts := s.facts + 1, worklist := s'.worklist, queued := s'.queued)
    && s'.queued == s.queued + Affected(f, s.readers, s.callers)
    && QueueTidy(s')
  }

  /** A method that is registered and not affected sees no difference. */
  lemma UnaffectedIsSame(ms: Methods, s: Snapshot, f: TaintFact, k: string, budget: nat)
    requires k in ms && WellFormed(ms[k].program)
    requires Registered(FoundIn(ms, k, s.tables, budget), k, s.readers, s.callers)
    requires k !in Affected(f, s.readers, s.callers)
    ensures AnalysisOf(ms, k, AddFact(s.tables, f), budget) == AnalysisOf(ms, k, s.tables, budget)
  {
    AnalysisDependsOn(ms, k, s.tables, AddFact(s.tables, f), budget);
  }

  lemma ProgressKept(ms: Methods, s: Snapshot, f: TaintFact, s': Snapshot, current: Option<string>, budget: nat)
    requires Progress(ms, s, current, budget) && RecordedTo(s, f, s')
    ensures Progress(ms, s', current, budget)
  {
    forall k | Analysed(ms, k) && k !in s'.queued && current != Some(k)
      ensures UpToDate(ms, s', k, budget) && Reflected(ms, s', k, budget)
    {
      UnaffectedIsSame(ms, s, f, k, budget);
      AddFactGrows(s.tables, f);
      if !s.limited {
        PublishedStays(FoundIn(ms, k, s.tables, budget), ms, k, s.tables, s'.tables);
      }
    }
  }

  lemma CurrentKept(ms: Methods, s: Snapshot, f: TaintFact, s': Snapshot, k: string, final: Config, budget: nat)
    requires Current(ms, s, k, final, budget) && RecordedTo(s, f, s')
    ensures Current(ms, s', k, final, budget)
  {
    if k !in s'.queued {
      UnaffectedIsSame(ms, s, f, k, budget);
    }
  }

  /** Once everything found is published, the current method is like any other. */
  lemma CurrentDone(ms: Methods, s: Snapshot, k: string, final: Config, budget: nat)
    requires Progress(ms, s, Some(k), budget) && Current(ms, s, k, final, budget)
    requires s.limited || Published(final.found, ms, k, s.tables)
    ensures Progress(ms, s, None, budget)
  {
  }

  /** Registering more dependents, seeing more flows or raising a flag hurts nobody. */
  ghost predicate Relaxes(s: Snapshot, s': Snapshot) {
    && s'.tables == s.tables && s.queued <= s'.queued && s.seen <= s'.seen
    && (forall f :: DependentsOf(s.readers, f) <= DependentsOf(s'.readers, f))
    && (forall m :: DependentsOf(s.callers, m) <= DependentsOf(s'.callers, m))
    && (s.limited ==> s'.limited) && (s.warned ==> s'.warned)
  }

  lemma RelaxingKeeps(ms: Methods, s: Snapshot, s': Snapshot, current: Option<string>, budget: nat)
    requires Progress(ms, s, current, budget) && Relaxes(s, s')
    ensures Progress(ms, s', current, budget)
  {
  }

  function ArgumentFacts(e: Effects, ms: Methods): set<TaintFact> {
    set a | a in e.arguments && a.0 in ms :: ParameterFact(a.0, a.1, a.2)
  }

  function WriteFacts(e: Effects): set<TaintFact> {
    set w | w in e.fieldWrites :: FieldFact(w.0, w.1)
  }

  function ReturnFacts(e: Effects, k: string): set<TaintFact> {
    set x | x in e.returned :: ReturnedFact(k, x)
  }

  ghost predicate AllHeld(t: Tables, fs: set<TaintFact>) {
    forall f :: f in fs ==> Has(t, f)
  }

  /** Publishing is holding the three sets of facts. */
  lemma PublishedIsHeld(e: Effects, ms: Methods, k: string, t: Tables)
    ensures Published(e, ms, k, t) <==>
            AllHeld(t, ArgumentFacts(e, ms)) && AllHeld(t, WriteFacts(e)) && AllHeld(t, ReturnFacts(e, k))
  {
    if AllHeld(t, ArgumentFacts(e, ms)) && AllHeld(t, WriteFacts(e)) && AllHeld(t, ReturnFacts(e, k)) {
      forall a | a in e.arguments && a.0 in ms ensures a.2 in Passed(t, a.0, a.1) {
        assert ParameterFact(a.0, a.1, a.2) in ArgumentFacts(e, ms);
      }
      forall w | w in e.fieldWrites ensures w.1 in Summaries(t.fields, w.0) {
        assert FieldFact(w.0, w.1) in WriteFacts(e);
      }
      forall x | x in e.returned ensures x in Summaries(t.returned, k) {
        assert ReturnedFact(k, x) in ReturnFacts(e, k);
      }
    }
  }

  ghost predicate KeptByRecording(P: Snapshot -> bool, todo: set<TaintFact>) {
    forall s, f, s' :: P(s) && f in todo && RecordedTo(s, f, s') ==> P(s')
  }

  ghost predicate KeptByLimiting(P: Snapshot -> bool) {
    forall s :: P(s) ==> P(s.(limited := true))
  }

  /** The tables hold as many facts as were counted, and nothing that some path-closed tables do not hold. */
  ghost function Tabled(ms: Methods): (Tables, nat) -> bool {
    (t: Tables, facts: nat) =>
      facts == |Facts(t)| <= MAX_FACTS && Solid(t) && (AllUnguarded(ms) ==> BelowPathClosed(ms, t))
  }

  lemma TabledParts(ms: Methods, t: Tables, facts: nat)
    requires Tabled(ms)(t, facts)
    ensures facts == |Facts(t)| <= MAX_FACTS && Solid(t) && (AllUnguarded(ms) ==> BelowPathClosed(ms, t))
  {
  }

  ghost function AllKnown(ms: Methods): Dependents -> bool {
    d => forall f :: DependentsOf(d, f) <= ms.Keys
  }

  ghost predicate Consistent(ms: Methods, s: Snapshot) {
    && QueueTidy(s) && s.queued <= ms.Keys && Tabled(ms)(s.tables, s.facts)
    && AllKnown(ms)(s.readers) && AllKnown(ms)(s.callers)
  }

  /** The facts a loop may add: about known methods, and within the bound. */
  ghost predicate Admissible(ms: Methods, todo: set<TaintFact>) {
    && (forall f :: f in todo && f.ParameterFact? ==> f.method_ in ms)
    && (AllUnguarded(ms) ==> forall t :: PathClosed(ms, t) ==> AllHeld(t, todo))
  }

  lemma ConsistentKept(ms: Methods, todo: set<TaintFact>, s: Snapshot, f: TaintFact, s': Snapshot)
    requires Consistent(ms, s) && f in todo && Admissible(ms, todo) && RecordedTo(s, f, s')
    ensures Consistent(ms, s')
  {
    TabledKept(ms, todo, s.tables, s.facts, f);
    AffectedKnown(ms, todo, f, s.readers, s.callers);
  }

  lemma AffectedKnown(ms: Methods, todo: set<TaintFact>, f: TaintFact, readers: Dependents, callers: Dependents)
    requires f in todo && Admissible(ms, todo) && AllKnown(ms)(readers) && AllKnown(ms)(callers)
    ensures Affected(f, readers, callers) <= ms.Keys
  {
  }

  lemma TabledKept(ms: Methods, todo: set<TaintFact>, t: Tables, facts: nat, f: TaintFact)
    requires Tabled(ms)(t, facts) && !Has(t, f) && facts < MAX_FACTS && f in todo && Admissible(ms, todo)
    ensures Tabled(ms)(AddFact(t, f), facts + 1)
  {
    TabledParts(ms, t, facts);
    OneMoreFact(t, f);
    AddFactGrows(t, f);
    BelowKept(ms, todo, t, f);
  }

  lemma BelowKept(ms: Methods, todo: set<TaintFact>, t: Tables, f: TaintFact)
    requires f in todo && Admissible(ms, todo) && (AllUnguarded(ms) ==> BelowPathClosed(ms, t))
    ensures AllUnguarded(ms) ==> BelowPathClosed(ms, AddFact(t, f))
  {
    if AllUnguarded(ms) {
      forall star | PathClosed(ms, star) ensures TablesLeq(AddFact(t, f), star) {
        AddFactBelow(t, f, star);
      }
    }
  }

  /** The result in hand is that of analysing method k against tables within the present ones. */
  ghost function Sourced(ms: Methods, k: string, final: Config, budget: nat): Tables -> bool {
    t => Analysed(ms, k) && WellFormed(ms[k].program)
         && exists t0 :: TablesLeq(t0, t) && final == AnalysisOf(ms, k, t0, budget)
  }

  ghost function Processing(ms: Methods, k: string, final: Config, budget: nat): Snapshot -> bool {
    s =>
      && Consistent(ms, s) && Progress(ms, s, Some(k), budget) && Current(ms, s, k, final, budget)
      && Derived(ms, budget)(s.tables) && Sourced(ms, k, final, budget)(s.tables)
  }

  lemma SourceKept(ms: Methods, k: string, final: Config, budget: nat, t: Tables, f: TaintFact)
    requires Derived(ms, budget)(t) && Sourced(ms, k, final, budget)(t)
    requires !Has(t, f) && f in FactsFrom(final.found, ms, k)
    ensures Derived(ms, budget)(AddFact(t, f)) && Sourced(ms, k, final, budget)(AddFact(t, f))
  {
    var t0 :| TablesLeq(t0, t) && final == AnalysisOf(ms, k, t0, budget);
    DerivedMore(ms, budget, t, f, k, t0);
    AddFactGrows(t, f);
    TablesLeqTransitive(t0, t, AddFact(t, f));
  }

  lemma ProcessingKept(ms: Methods, k: string, final: Config, budget: nat, todo: set<TaintFact>)
    requires Admissible(ms, todo) && todo <= FactsFrom(final.found, ms, k)
    ensures KeptByRecording(Processing(ms, k, final, budget), todo)
    ensures KeptByLimiting(Processing(ms, k, final, budget))
  {
    var P := Processing(ms, k, final, budget);
    forall s, f, s' | P(s) && f in todo && RecordedTo(s, f, s') ensures P(s') {
      ProcessingParts(ms, k, final, budget, s);
      ConsistentKept(ms, todo, s, f, s');
      ProgressKept(ms, s, f, s', Some(k), budget);
      CurrentKept(ms, s, f, s', k, final, budget);
      SourceKept(ms, k, final, budget, s.tables, f);
      MakeProcessing(ms, k, final, budget, s');
    }
    forall s | P(s) ensures P(s.(limited := true)) {
      LimitingKeeps(ms, s, k, final, budget);
    }
  }

  lemma LimitingKeeps(ms: Methods, s: Snapshot, k: string, final: Config, budget: nat)
    requires Processing(ms, k, final, budget)(s)
    ensures Processing(ms, k, final, budget)(s.(limited := true))
  {
    ProcessingParts(ms, k, final, budget, s);
    RelaxingKeeps(ms, s, s.(limited := true), Some(k), budget);
    CurrentRelaxes(ms, s, s.(limited := true), k, final, budget);
    MakeProcessing(ms, k, final, budget, s.(limited := true));
  }

  lemma CurrentRelaxes(ms: Methods, s: Snapshot, s': Snapshot, k: string, final: Config, budget: nat)
    requires Current(ms, s, k, final, budget) && Relaxes(s, s')
    ensures Current(ms, s', k, final, budget)
  {
  }

  lemma ProcessingTidy(ms: Methods, s: Snapshot, k: string, final: Config, budget: nat)
    requires Processing(ms, k, final, budget)(s)
    ensures QueueTidy(s)
  {
    ProcessingParts(ms, k, final, budget, s);
  }

  lemma ProcessingSolid(ms: Methods, s: Snapshot, k: string, final: Config, budget: nat)
    requires Processing(ms, k, final, budget)(s)
    ensures Solid(s.tables)
  {
    ProcessingParts(ms, k, final, budget, s);
    TabledParts(ms, s.tables, s.facts);
  }

  /** Between two methods: the tables are consistent and everything that is not waiting is reflected. */
  ghost function Idle(ms: Methods, budget: nat): Snapshot -> bool {
    s => Consistent(ms, s) && Progress(ms, s, None, budget) && Derived(ms, budget)(s.tables)
  }

  /** Just after method k was taken off the worklist. */
  ghost function Taken(ms: Methods, k: string, budget: nat): Snapshot -> bool {
    s =>
      && Consistent(ms, s) && Progress(ms, s, Some(k), budget) && Derived(ms, budget)(s.tables)
      && k in ms && k !in s.queued
  }

  lemma IdleParts(ms: Methods, budget: nat, s: Snapshot)
    requires Idle(ms, budget)(s)
    ensures Consistent(ms, s) && Progress(ms, s, None, budget) && Derived(ms, budget)(s.tables)
  {
  }

  lemma MakeIdle(ms: Methods, budget: nat, s: Snapshot)
    requires Consistent(ms, s) && Progress(ms, s, None, budget) && Derived(ms, budget)(s.tables)
    ensures Idle(ms, budget)(s)
  {
  }

  lemma TakenParts(ms: Methods, k: string, budget: nat, s: Snapshot)
    requires Taken(ms, k, budget)(s)
    ensures Consistent(ms, s) && Progress(ms, s, Some(k), budget) && Derived(ms, budget)(s.tables)
    ensures k in ms && k !in s.queued
  {
  }

  lemma MakeTaken(ms: Methods, k: string, budget: nat, s: Snapshot)
    requires Consistent(ms, s) && Progress(ms, s, Some(k), budget) && Derived(ms, budget)(s.tables)
    requires k in ms && k !in s.queued
    ensures Taken(ms, k, budget)(s)
  {
  }

  lemma ProcessingParts(ms: Methods, k: string, final: Config, budget: nat, s: Snapshot)
    requires Processing(ms, k, final, budget)(s)
    ensures Consistent(ms, s) && Progress(ms, s, Some(k), budget) && Current(ms, s, k, final, budget)
    ensures Derived(ms, budget)(s.tables) && Sourced(ms, k, final, budget)(s.tables)
  {
  }

  lemma MakeProcessing(ms: Methods, k: string, final: Config, budget: nat, s: Snapshot)
    requires Consistent(ms, s) && Progress(ms, s, Some(k), budget) && Current(ms, s, k, final, budget)
    requires Derived(ms, budget)(s.tables) && Sourced(ms, k, final, budget)(s.tables)
    ensures Processing(ms, k, final, budget)(s)
  {
  }

  /** The lists kept beside the tables are in order. */
  ghost function Booked(ms: Methods, budget: nat, current: Option<string>):
    (Snapshot, seq<(string, Flow)>, seq<string>) -> bool
  {
    (s, flows, skipped) =>
      && |flows| <= MAX_FLOWS && Listed(s, flows) && AllGrounded(ms, s.tables, flows)
      && SkippedKnown(ms, s, skipped, current) && Accounted(ms, budget)(s, flows, skipped)
  }

  /** No two listed flows have the same key, and every key has been seen. */
  ghost predicate KeysOnce(seen: set<FlowKey>, flows: seq<(string, Flow)>) {
    && (forall i :: 0 <= i < |flows| ==> KeyOf(flows[i].0, flows[i].1) in seen)
    && (forall i, j :: 0 <= i < j < |flows| ==> KeyOf(flows[i].0, flows[i].1) != KeyOf(flows[j].0, flows[j].1))
  }

  /** The analysis of a method against tables within the given ones found the flow. */
  ghost predicate FlowFound(ms: Methods, t: Tables, budget: nat, k: string, f: Flow) {
    Analysed(ms, k) && WellFormed(ms[k].program)
    && exists t0 :: TablesLeq(t0, t) && f in FoundIn(ms, k, t0, budget).flows
  }

  ghost predicate AllFound(ms: Methods, t: Tables, budget: nat, flows: seq<(string, Flow)>) {
    forall e :: e in flows ==> FlowFound(ms, t, budget, e.0, e.1)
  }

  /** The analysis of a method against tables within the given ones was cut off by its step budget. */
  ghost predicate CutFor(ms: Methods, t: Tables, budget: nat, k: string) {
    Analysed(ms, k) && WellFormed(ms[k].program)
    && exists t0 :: TablesLeq(t0, t) && AnalysisOf(ms, k, t0, budget).queue != []
  }

  ghost predicate CutSomewhere(ms: Methods, t: Tables, budget: nat) {
    exists k :: CutFor(ms, t, budget, k)
  }

  /** Only methods with too many lines were set aside, each once. */
  ghost predicate SetAsideRightly(ms: Methods, skipped: seq<string>) {
    Distinct(skipped) && forall k :: k in skipped ==> k in ms && ms[k].lines > MAX_LINES
  }

  /** Everything listed or warned about has its cause. */
  ghost function Accounted(ms: Methods, budget: nat): (Snapshot, seq<(string, Flow)>, seq<string>) -> bool {
    (s: Snapshot, flows: seq<(string, Flow)>, skipped: seq<string>) =>
      && KeysOnce(s.seen, flows) && AllFound(ms, s.tables, budget, flows)
      && (s.warned ==> CutSomewhere(ms, s.tables, budget)) && SetAsideRightly(ms, skipped)
  }

  lemma AccountedParts(ms: Methods, budget: nat, s: Snapshot, flows: seq<(string, Flow)>, skipped: seq<string>)
    requires Accounted(ms, budget)(s, flows, skipped)
    ensures KeysOnce(s.seen, flows) && AllFound(ms, s.tables, budget, flows)
    ensures (s.warned ==> CutSomewhere(ms, s.tables, budget)) && SetAsideRightly(ms, skipped)
  {
  }

  lemma MakeAccounted(ms: Methods, budget: nat, s: Snapshot, flows: seq<(string, Flow)>, skipped: seq<string>)
    requires KeysOnce(s.seen, flows) && AllFound(ms, s.tables, budget, flows)
    requires (s.warned ==> CutSomewhere(ms, s.tables, budget)) && SetAsideRightly(ms, skipped)
    ensures Accounted(ms, budget)(s, flows, skipped)
  {
  }

  /** Larger tables account for what smaller ones did. */
  lemma StillAccounted(ms: Methods, budget: nat, s: Snapshot, s': Snapshot, flows: seq<(string, Flow)>,
                       skipped: seq<string>)
    requires Accounted(ms, budget)(s, flows, skipped)
    requires s'.seen == s.seen && s'.warned == s.warned && TablesLeq(s.tables, s'.tables)
    ensures Accounted(ms, budget)(s', flows, skipped)
  {
    AccountedParts(ms, budget, s, flows, skipped);
    AllStillFound(ms, s.tables, s'.tables, budget, flows);
    if s.warned {
      StillCut(ms, s.tables, s'.tables, budget);
    }
    MakeAccounted(ms, budget, s', flows, skipped);
  }

  lemma AllStillFound(ms: Methods, t: Tables, t': Tables, budget: nat, flows: seq<(string, Flow)>)
    requires AllFound(ms, t, budget, flows) && TablesLeq(t, t')
    ensures AllFound(ms, t', budget, flows)
  {
    forall e | e in flows ensures FlowFound(ms, t', budget, e.0, e.1) {
      var t0 :| TablesLeq(t0, t) && e.1 in FoundIn(ms, e.0, t0, budget).flows;
      TablesLeqTransitive(t0, t, t');
    }
  }

  lemma StillCut(ms: Methods, t: Tables, t': Tables, budget: nat)
    requires CutSomewhere(ms, t, budget) && TablesLeq(t, t')
    ensures CutSomewhere(ms, t', budget)
  {
    var k :| CutFor(ms, t, budget, k);
    var t0 :| TablesLeq(t0, t) && AnalysisOf(ms, k, t0, budget).queue != [];
    TablesLeqTransitive(t0, t, t');
    assert CutFor(ms, t', budget, k);
  }

  /** What a fresh analysis adds to the list of flows, and to the warnings, is accounted for. */
  lemma AccountedAfter(ms: Methods, budget: nat, s: Snapshot, s': Snapshot, k: string, final: Config,
                       before: seq<(string, Flow)>, after: seq<(string, Flow)>, skipped: seq<string>)
    requires Accounted(ms, budget)(s, before, skipped) && Fresh(ms, k, s.tables, budget)(final)
    requires s'.tables == s.tables && s'.warned == (s.warned || final.queue != []) && KeysOnce(s'.seen, after)
    requires forall e :: e in after ==> e in before || (e.0 == k && e.1 in final.found.flows)
    ensures Accounted(ms, budget)(s', after, skipped)
  {
    AccountedParts(ms, budget, s, before, skipped);
    assert TablesLeq(s.tables, s.tables);
    forall e | e in after ensures FlowFound(ms, s.tables, budget, e.0, e.1) {
    }
    if final.queue != [] {
      assert CutFor(ms, s.tables, budget, k);
    }
    MakeAccounted(ms, budget, s', after, skipped);
  }

  // ----- where the facts come from -----

  /** Analysing method k against the tables finds the fact. */
  ghost predicate Finds(ms: Methods, k: string, t: Tables, budget: nat, f: TaintFact) {
    Analysed(ms, k) && WellFormed(ms[k].program) && f in FactsFrom(FoundIn(ms, k, t, budget), ms, k)
  }

  ghost function FactsFrom(e: Effects, ms: Methods, k: string): set<TaintFact> {
    ArgumentFacts(e, ms) + WriteFacts(e) + ReturnFacts(e, k)
  }

  /** Some method, analysed against no more than the facts before, finds the next one. */
  ghost predicate FoundNext(ms: Methods, budget: nat, before: set<TaintFact>, f: TaintFact) {
    exists k, t :: Facts(t) <= before && Finds(ms, k, t, budget, f)
  }

  /** The facts one after the other, each found from earlier ones. */
  ghost predicate IsDerivation(ms: Methods, budget: nat, steps: seq<TaintFact>) {
    forall i :: 0 <= i < |steps| ==> FoundNext(ms, budget, Elements(steps[..i]), steps[i])
  }

  /** The tables hold the facts of a derivation and no others. */
  ghost function Derived(ms: Methods, budget: nat): Tables -> bool {
    t => exists steps :: IsDerivation(ms, budget, steps) && Elements(steps) == Facts(t)
  }

  lemma NothingDerived(ms: Methods, budget: nat)
    ensures Derived(ms, budget)(Tables(map[], map[], map[]))
  {
    assert IsDerivation(ms, budget, []);
    assert Elements<TaintFact>([]) == Facts(Tables(map[], map[], map[]));
  }

  lemma SamePrefix<A>(steps: seq<A>, f: A, i: nat)
    requires i < |steps|
    ensures (steps + [f])[..i] == steps[..i] && (steps + [f])[i] == steps[i]
  {
  }

  lemma OneMoreStep(ms: Methods, budget: nat, steps: seq<TaintFact>, f: TaintFact)
    requires IsDerivation(ms, budget, steps) && FoundNext(ms, budget, Elements(steps), f)
    ensures IsDerivation(ms, budget, steps + [f])
  {
    var more := steps + [f];
    forall i | 0 <= i < |more| ensures FoundNext(ms, budget, Elements(more[..i]), more[i]) {
      if i < |steps| {
        SamePrefix(steps, f, i);
      } else {
        assert more[..i] == steps;
      }
    }
  }

  lemma LessHasLess(t: Tables, t': Tables)
    requires TablesLeq(t, t')
    ensures Facts(t) <= Facts(t')
  {
    forall f | f in Facts(t) ensures f in Facts(t') {
      FactsAreWhatItHas(t, f);
      FactsAreWhatItHas(t', f);
      LessHas(t, t', f);
    }
  }

  lemma LessHas(t: Tables, t': Tables, f: TaintFact)
    requires TablesLeq(t, t') && Has(t, f)
    ensures Has(t', f)
  {
    match f
    case ParameterFact(k, r, x) => assert Passed(t, k, r) <= Passed(t', k, r);
    case FieldFact(g, x) => assert Summaries(t.fields, g) <= Summaries(t'.fields, g);
    case ReturnedFact(k, x) => assert Summaries(t.returned, k) <= Summaries(t'.returned, k);
  }

  lemma DerivedMore(ms: Methods, budget: nat, t: Tables, f: TaintFact, k: string, t0: Tables)
    requires Derived(ms, budget)(t) && !Has(t, f) && TablesLeq(t0, t) && Finds(ms, k, t0, budget, f)
    ensures Derived(ms, budget)(AddFact(t, f))
  {
    var steps :| IsDerivation(ms, budget, steps) && Elements(steps) == Facts(t);
    LessHasLess(t0, t);
    OneMoreStep(ms, budget, steps, f);
    ExtendElements(steps, f);
    OneMoreFact(t, f);
  }

  class Engine {
    var parameterTaints: map<string, map<Register, Traces>>
    var staticFieldTaints: map<string, Traces>
    var methodReturnTaints: map<string, Traces>
    var staticFieldReaders: Dependents
    var returnCallers: Dependents
    var worklist: seq<string>
    var queued: set<string>
    var seenFlows: set<FlowKey>
    var facts: nat
    var limited: bool
    var warned: bool
    var skipped: seq<string>
    var localFlows: seq<(string, Flow)>

    function T(): Tables
      reads this
    {
      Tables(parameterTaints, staticFieldTaints, methodReturnTaints)
    }

    function Now(): Snapshot
      reads this
    {
      Snapshot(T(), staticFieldReaders, returnCallers, worklist, queued, seenFlows, facts, limited, warned)
    }

    /** The limit is only raised when a cap is reached. */
    predicate CapHit()
      reads this
    {
      limited ==> facts >= MAX_FACTS || |localFlows| >= MAX_FLOWS
    }

    constructor (order: seq<string>)
      ensures Now() == Snapshot(Tables(map[], map[], map[]), map[], map[], order, Elements(order), {}, 0, false, false)
      ensures skipped == [] && localFlows == []
    {
      parameterTaints, staticFieldTaints, methodReturnTaints := map[], map[], map[];
      staticFieldReaders, returnCallers := map[], map[];
      worklist, queued := order, Elements(order);
      seenFlows, facts, limited, warned := {}, 0, false, false;
      skipped, localFlows := [], [];
    }

    /** Appends what is not waiting yet. */
    method Requeue(keys: set<string>)
      requires queued == Elements(worklist) && Distinct(worklist)
      modifies this`worklist, this`queued
      ensures queued == Elements(worklist) == old(queued) + keys && Distinct(worklist)
      ensures old(worklist) <= worklist
    {
      var order := Enumerate(keys);
      var i := 0;
      while i < |order|
        invariant 0 <= i <= |order|
        invariant queued == Elements(worklist) == old(queued) + Elements(order[..i]) && Distinct(worklist)
        invariant old(worklist) <= worklist
      {
        TakeOneMore(order, i);
        if order[i] !in queued {
          ExtendElements(worklist, order[i]);
          worklist := worklist + [order[i]];
          queued := queued + {order[i]};
        }
        i := i + 1;
      }
      assert order[..i] == order;
    }

    /** Adds one new fact to its table and re-queues whoever depends on it. */
    method Record(f: TaintFact)
      requires QueueTidy(Now()) && !Has(T(), f) && facts < MAX_FACTS
      modifies this`parameterTaints, this`staticFieldTaints, this`methodReturnTaints, this`facts, this`worklist,
               this`queued
      ensures RecordedTo(old(Now()), f, Now()) && old(worklist) <= worklist
    {
      match f {
        case ParameterFact(target, r, x) =>
          var parameters := ParametersOf(T(), target);
          parameterTaints := parameterTaints[target := parameters[r := Lookup(parameters, r) + {x}]];
        case FieldFact(g, x) =>
          staticFieldTaints := staticFieldTaints[g := Summaries(staticFieldTaints, g) + {x}];
        case ReturnedFact(m, x) =>
          methodReturnTaints := methodReturnTaints[m := Summaries(methodReturnTaints, m) + {x}];
      }
      facts := facts + 1;
      assert T() == AddFact(old(T()), f);
      Requeue(Affected(f, staticFieldReaders, returnCallers));
    }

    /**
     One publication loop: it stops at the first fact the cap refuses. Whatever every single recording
     keeps, the loop keeps.
     */
    method Publish(todo: set<TaintFact>, ghost P: Snapshot -> bool)
      requires QueueTidy(Now()) && P(Now()) && KeptByRecording(P, todo) && KeptByLimiting(P)
      modifies this`parameterTaints, this`staticFieldTaints, this`methodReturnTaints, this`facts, this`worklist,
               this`queued, this`limited
      ensures QueueTidy(Now()) && P(Now())
      ensures Now() == old(Now()).(tables := T(), facts := facts, worklist := worklist, queued := queued,
                                   limited := limited)
      ensures forall f :: Has(old(T()), f) ==> Has(T(), f)
      ensures old(limited) ==> limited
      ensures limited || AllHeld(T(), todo)
      ensures (limited <==> old(limited)) || facts >= MAX_FACTS
      ensures facts > old(facts) || (facts == old(facts) && worklist == old(worklist))
      ensures old(queued) <= queued && old(worklist) <= worklist
    {
      var order := Enumerate(todo);
      var i := 0;
      while i < |order|
        invariant 0 <= i <= |order|
        invariant QueueTidy(Now()) && P(Now())
        invariant Now() == old(Now()).(tables := T(), facts := facts, worklist := worklist, queued := queued)
        invariant forall f :: Has(old(T()), f) ==> Has(T(), f)
        invariant forall n :: 0 <= n < i ==> Has(T(), order[n])
        invariant facts > old(facts) || (facts == old(facts) && worklist == old(worklist))
        invariant old(queued) <= queued && old(worklist) <= worklist
      {
        var f := order[i];
        assert f in Elements(order);
        i := i + 1;
        if Has(T(), f) {
          continue;
        }
        label limiting:
        if facts >= MAX_FACTS {
          limited := true;
          assert Now() == old@limiting(Now()).(limited := true);
          break;
        }
        label recording:
        Record(f);
        forall g | Has(old@recording(T()), g) || g == f ensures Has(T(), g) {
          AddedFactHas(old@recording(T()), f, g);
        }
      }
    }

    /** Lists the flows not seen before; the first one that does not fit raises the limit. */
    method RecordFlows(k: string, flows: set<Flow>)
      requires |localFlows| <= MAX_FLOWS && Listed(Now(), localFlows) && KeysOnce(seenFlows, localFlows)
      modifies this`seenFlows, this`localFlows, this`limited
      ensures |localFlows| <= MAX_FLOWS && Listed(Now(), localFlows) && KeysOnce(seenFlows, localFlows)
      ensures (limited <==> old(limited)) || |localFlows| >= MAX_FLOWS
      ensures old(localFlows) <= localFlows
      ensures Now() == old(Now()).(seen := seenFlows, limited := limited)
      ensures old(seenFlows) <= seenFlows && (old(limited) ==> limited)
      ensures limited || forall f :: f in flows ==> KeyOf(k, f) in seenFlows
      ensures forall e :: e in localFlows ==> e in old(localFlows) || (e.0 == k && e.1 in flows)
    {
      var order := Enumerate(flows);
      var i := 0;
      while i < |order|
        invariant 0 <= i <= |order|
        invariant |localFlows| <= MAX_FLOWS && Listed(Now(), localFlows) && KeysOnce(seenFlows, localFlows)
        invariant Now() == old(Now()).(seen := seenFlows) && old(localFlows) <= localFlows
        invariant old(seenFlows) <= seenFlows
        invariant forall n :: 0 <= n < i ==> KeyOf(k, order[n]) in seenFlows
        invariant forall e :: e in localFlows ==> e in old(localFlows) || (e.0 == k && e.1 in flows)
      {
        var flow := order[i];
        assert flow in Elements(order);
        i := i + 1;
        if KeyOf(k, flow) !in seenFlows {
          ghost var before, seenBefore := localFlows, Now();
          seenFlows := seenFlows + {KeyOf(k, flow)};
          if |localFlows| < MAX_FLOWS {
            localFlows := localFlows + [(k, flow)];
            OneMoreListed(seenBefore, Now(), before, k, flow);
            OneMoreKey(seenBefore.seen, before, k, flow);
          } else {
            limited := true;
            break;
          }
        }
      }
    }

    /** Publishes everything an analysis found, one table after the other. */
    method PublishAll(ms: Methods, k: string, found: Effects, ghost final: Config, budget: nat)
      requires Processing(ms, k, final, budget)(Now()) && found == final.found
      requires Publishable(ms, k)(found)
      modifies this`parameterTaints, this`staticFieldTaints, this`methodReturnTaints, this`facts, this`worklist,
               this`queued, this`limited
      ensures Idle(ms, budget)(Now())
      ensures Now() == old(Now()).(tables := T(), facts := facts, worklist := worklist, queued := queued,
                                   limited := limited)
      ensures old(limited) ==> limited
      ensures (limited <==> old(limited)) || facts >= MAX_FACTS
      ensures facts > old(facts) || (facts == old(facts) && worklist == old(worklist))
      ensures old(queued) <= queued && old(worklist) <= worklist
      ensures Solid(old(T())) && forall f :: Has(old(T()), f) ==> Has(T(), f)
    {
      ProcessingSolid(ms, Now(), k, final, budget);
      PublishSome(ms, k, ArgumentFacts(found, ms), final, budget);
      PublishSome(ms, k, WriteFacts(found), final, budget);
      PublishSome(ms, k, ReturnFacts(found, k), final, budget);
      PublishedIsHeld(found, ms, k, T());
      ProcessingDone(ms, Now(), k, final, budget);
    }

    /** Publishes some of what the analysis of the current method found. */
    method PublishSome(ghost ms: Methods, ghost k: string, todo: set<TaintFact>, ghost final: Config, ghost budget: nat)
      requires Processing(ms, k, final, budget)(Now()) && Admissible(ms, todo) && todo <= FactsFrom(final.found, ms, k)
      modifies this`parameterTaints, this`staticFieldTaints, this`methodReturnTaints, this`facts, this`worklist,
               this`queued, this`limited
      ensures Processing(ms, k, final, budget)(Now())
      ensures Now() == old(Now()).(tables := T(), facts := facts, worklist := worklist, queued := queued,
                                   limited := limited)
      ensures forall f :: Has(old(T()), f) ==> Has(T(), f)
      ensures (old(limited) ==> limited) && (limited || AllHeld(T(), todo))
      ensures (limited <==> old(limited)) || facts >= MAX_FACTS
      ensures facts > old(facts) || (facts == old(facts) && worklist == old(worklist))
      ensures old(queued) <= queued && old(worklist) <= worklist
    {
      ProcessingTidy(ms, Now(), k, final, budget);
      ProcessingKept(ms, k, final, budget, todo);
      Publish(todo, Processing(ms, k, final, budget));
    }

    /** Analyses the current method against the current summaries. */
    method Analyse(ms: Methods, k: string, budget: nat) returns (found: Effects, cut: bool, ghost final: Config)
      requires Analysed(ms, k) && WellFormed(ms[k].program)
      ensures Fresh(ms, k, T(), budget)(final)
      ensures found == final.found == FoundIn(ms, k, T(), budget)
      ensures cut <==> AnalysisOf(ms, k, T(), budget).queue != []
      ensures cut <==> final.queue != []
    {
      found, cut, final := AnalyzeLocalRegisterFlows(
        ms[k].program, EnvOf(ms, k, T()), InitialOf(ParametersOf(T(), k), ms[k].seeds), budget);
    }

    /** Registers what the current method depends on and lists its flows. */
    method Register(k: string, found: Effects, cut: bool, ghost final: Config)
      requires found == final.found && (cut <==> final.queue != [])
      requires |localFlows| <= MAX_FLOWS && Listed(Now(), localFlows) && KeysOnce(seenFlows, localFlows)
      modifies this`warned, this`staticFieldReaders, this`returnCallers, this`seenFlows, this`localFlows, this`limited
      ensures Enrols(k, final)(old(Now()), Now())
      ensures |localFlows| <= MAX_FLOWS && Listed(Now(), localFlows) && KeysOnce(seenFlows, localFlows)
      ensures forall e :: e in localFlows ==> e in old(localFlows) || (e.0 == k && e.1 in found.flows)
      ensures old(CapHit()) ==> CapHit()
    {
      ghost var taken := Now();
      warned := warned || cut;
      staticFieldReaders := Subscribe(staticFieldReaders, found.fieldReads, k);
      returnCallers := Subscribe(returnCallers, found.called, k);
      RecordFlows(k, found.flows);
      MakeEnrols(taken, Now(), k, final);
    }

    /** Analyses the current method and registers it. */
    method Enrol(ms: Methods, k: string, budget: nat) returns (found: Effects, ghost final: Config)
      requires Taken(ms, k, budget)(Now()) && Booked(ms, budget, Some(k))(Now(), localFlows, skipped)
      requires Analysed(ms, k) && WellFormed(ms[k].program)
      modifies this`warned, this`staticFieldReaders, this`returnCallers, this`seenFlows, this`localFlows, this`limited
      ensures found == final.found && Publishable(ms, k)(found)
      ensures Processing(ms, k, final, budget)(Now()) && Booked(ms, budget, None)(Now(), localFlows, skipped)
      ensures old(CapHit()) ==> CapHit()
    {
      ghost var taken, before := Now(), localFlows;
      var cut;
      found, cut, final := Analyse(ms, k, budget);
      ListedStays(ms, budget, taken, localFlows, skipped, k);
      Register(k, found, cut, final);
      Enrolled(ms, taken, Now(), k, final, budget, before, localFlows, skipped);
    }

    /** Analyses the current method, registers it, and publishes what it passes on. */
    method Digest(ms: Methods, k: string, budget: nat)
      requires Taken(ms, k, budget)(Now()) && Booked(ms, budget, Some(k))(Now(), localFlows, skipped)
      requires Analysed(ms, k) && WellFormed(ms[k].program)
      modifies this
      ensures Idle(ms, budget)(Now()) && Booked(ms, budget, None)(Now(), localFlows, skipped)
      ensures facts > old(facts) || (facts == old(facts) && worklist == old(worklist))
      ensures old(worklist) <= worklist
      ensures old(CapHit()) ==> CapHit()
    {
      var found;
      ghost var final;
      found, final := Enrol(ms, k, budget);
      ghost var registered := Now();
      PublishAll(ms, k, found, final, budget);
      HasMoreIsLeq(registered.tables, T());
      StillBooked(ms, budget, registered, Now(), localFlows, skipped);
    }

    /** Remembers a method with too many lines instead of analysing it. */
    method Skip(ms: Methods, k: string, budget: nat)
      requires Taken(ms, k, budget)(Now()) && Booked(ms, budget, Some(k))(Now(), localFlows, skipped)
      requires !Analysed(ms, k)
      modifies this`skipped
      ensures Idle(ms, budget)(Now()) && Booked(ms, budget, None)(Now(), localFlows, skipped)
      ensures skipped == if k in old(skipped) then old(skipped) else old(skipped) + [k]
    {
      ghost var before := skipped;
      if k !in skipped {
        skipped := skipped + [k];
      }
      SetAside(ms, Now(), k, budget, localFlows, before, skipped);
    }

    method TakeNext(ms: Methods, ghost budget: nat) returns (k: string)
      requires worklist != []
      requires Idle(ms, budget)(Now()) && Booked(ms, budget, None)(Now(), localFlows, skipped)
      modifies this`worklist, this`queued
      ensures Taken(ms, k, budget)(Now()) && Booked(ms, budget, Some(k))(Now(), localFlows, skipped)
      ensures k in ms && k == old(worklist)[0] && worklist == old(worklist)[1..]
    {
      ghost var start := Now();
      k := worklist[0];
      worklist := worklist[1..];
      queued := queued - {k};
      Popped(ms, start, Now(), k, budget, localFlows, skipped);
    }

    /**
     Takes the next method off the worklist and deals with it. A method without instructions makes
     the source raise, because its analysis then returns too few results.
     */
    method ProcessNext(ms: Methods, budget: nat) returns (raised: bool)
      requires ValidMethods(ms) && worklist != []
      requires Idle(ms, budget)(Now()) && Booked(ms, budget, None)(Now(), localFlows, skipped)
      modifies this
      ensures raised <==> Faulty(ms, old(worklist)[0])
      ensures !raised ==> old(worklist)[1..] <= worklist
      ensures !raised ==> Idle(ms, budget)(Now()) && Booked(ms, budget, None)(Now(), localFlows, skipped)
      ensures !raised ==> facts > old(facts) || (facts == old(facts) && |worklist| < |old(worklist)|)
      ensures old(CapHit()) ==> CapHit()
    {
      var k := TakeNext(ms, budget);
      if ms[k].lines > MAX_LINES {
        Skip(ms, k, budget);
        return false;
      }
      if ms[k].program.code == [] {
        return true;
      }
      Digest(ms, k, budget);
      return false;
    }

    /**
     The whole propagation.
     - It raises exactly when a method without instructions is among the first MAX_RUNS of the order.
     - The limit is raised only if the facts, the flows or the rounds the facts make necessary reach a cap, and
       it warns only if some analysis was cut off by its budget; a package that has room does neither.
     - Every fact in the tables is found by analysing some method against facts found before it, every listed
       flow by analysing its method, and no flow key is listed and no method set aside twice.
     - If no cap was hit, analysing any method again with the final tables yields nothing new.
     - Without guarded forms the final tables are within all path-closed ones and every listed flow is one
       that a path carries under them; if no cap was hit they are the least path-closed tables and the
       listed flows are exactly those of paths.
     */
    method BuildFlows(ms: Methods, order: seq<string>, budget: nat) returns (raised: bool)
      requires ValidMethods(ms) && Distinct(order) && Elements(order) == ms.Keys
      requires Now() == Snapshot(Tables(map[], map[], map[]), map[], map[], order, Elements(order), {}, 0, false, false)
      requires skipped == [] && localFlows == []
      modifies this
      ensures raised <==> FaultyAmong(ms, order, MAX_RUNS)
      ensures |order| <= MAX_RUNS ==> (raised <==> exists k :: Faulty(ms, k))
      ensures !raised ==> facts == |Facts(T())| <= MAX_FACTS && Solid(T())
      ensures !raised && !limited ==> Closed(ms, T(), budget) && AllFlowsListed(ms, T(), budget, localFlows)
      ensures !raised && !limited && !warned ==> Complete(ms, T(), budget)
      ensures !raised && !limited ==> forall k :: k in ms && !Analysed(ms, k) ==> k in skipped
      ensures !raised && AllUnguarded(ms) ==> BelowPathClosed(ms, T()) && AllGrounded(ms, T(), localFlows)
      ensures !raised && AllUnguarded(ms) && !limited && !warned ==>
              LeastPathClosed(ms, T()) && ListsExactly(ms, T(), localFlows)
      ensures !raised && !limited && !warned ==> HoldsFirmChains(ms)(T(), localFlows)
      ensures !raised && AllUnguarded(ms) && !limited && !warned ==> HoldsExactlyChains(ms)(T(), localFlows)
      ensures !raised && limited ==>
                facts >= MAX_FACTS || |localFlows| >= MAX_FLOWS || RunsSpent(order)(facts)
      ensures !raised && warned ==> CutSomewhere(ms, T(), budget)
      ensures !raised && AllUnguarded(ms) && HasRoom(ms, order, budget) ==> !limited && !warned
      ensures !raised ==> Derived(ms, budget)(T()) && AllFound(ms, T(), budget, localFlows)
      ensures !raised ==> |localFlows| <= MAX_FLOWS && KeysOnce(seenFlows, localFlows) && SetAsideRightly(ms, skipped)
    {
      raised := Propagate(ms, order, budget);
      if !raised {
        Concluded(ms, order, budget, Now(), T(), localFlows, skipped);
      }
      EveryMethodIsAmong(ms, order);
    }

    /** One round of the loop, which is the given one of all. */
    method Round(ms: Methods, ghost order: seq<string>, ghost runs: nat, budget: nat) returns (raised: bool)
      requires ValidMethods(ms) && Elements(order) == ms.Keys && worklist != [] && runs < MAX_RUNS
      requires Idle(ms, budget)(Now()) && Booked(ms, budget, None)(Now(), localFlows, skipped)
               && Ahead(ms, order, runs)(worklist)
      modifies this
      ensures raised ==> FaultyAmong(ms, order, MAX_RUNS)
      ensures !raised ==>
                  Idle(ms, budget)(Now()) && Booked(ms, budget, None)(Now(), localFlows, skipped)
                  && Ahead(ms, order, runs + 1)(worklist)
      ensures !raised ==> facts > old(facts) || (facts == old(facts) && |worklist| < |old(worklist)|)
      ensures !raised ==> facts <= MAX_FACTS && |worklist| <= |order|
      ensures old(CapHit()) ==> CapHit()
    {
      ghost var before := worklist;
      NextAhead(ms, order, runs, before);
      raised := ProcessNext(ms, budget);
      if !raised {
        KnownQueue(ms, Now(), budget);
        StaysAhead(ms, order, runs, before, worklist);
        FactsCapped(ms, Now(), budget);
        QueueFits(ms, order, Now(), budget);
      }
    }

    /** The loop: it ends with an empty worklist, or says that it was stopped. */
    method Propagate(ms: Methods, order: seq<string>, budget: nat) returns (raised: bool)
      requires ValidMethods(ms) && Distinct(order) && Elements(order) == ms.Keys
      requires Now() == Snapshot(Tables(map[], map[], map[]), map[], map[], order, Elements(order), {}, 0, false, false)
      requires skipped == [] && localFlows == []
      modifies this
      ensures raised <==> FaultyAmong(ms, order, MAX_RUNS)
      ensures !raised ==> Idle(ms, budget)(Now()) && Booked(ms, budget, None)(Now(), localFlows, skipped)
      ensures !raised ==> limited || worklist == []
      ensures !raised && limited ==>
                facts >= MAX_FACTS || |localFlows| >= MAX_FLOWS || RunsSpent(order)(facts)
    {
      StartIdle(ms, Now(), budget);
      StartAhead(ms, order);
      var runs := 0;
      while worklist != [] && runs < MAX_RUNS
        invariant Idle(ms, budget)(Now()) && Booked(ms, budget, None)(Now(), localFlows, skipped)
        invariant facts <= MAX_FACTS && runs <= MAX_RUNS
        invariant Ahead(ms, order, runs)(worklist)
        invariant CapHit() && RoundsFit(order, runs, |worklist|, facts)
        decreases MAX_FACTS - facts, |worklist|
      {
        ghost var waiting, known := |worklist|, facts;
        raised := Round(ms, order, runs, budget);
        if raised {
          return;
        }
        RoundCounts(order, runs, waiting, known, |worklist|, facts);
        runs := runs + 1;
      }
      AllTaken(ms, order, runs, worklist);
      if worklist != [] {
        ghost var before := Now();
        limited := true;
        LimitRaised(ms, before, budget, localFlows, skipped);
      }
      return false;
    }
  }

  /** An analysed method without instructions, for which the source's analysis returns too few results. */
  ghost predicate Faulty(ms: Methods, k: string) {
    Analysed(ms, k) && ms[k].program.code == []
  }

  ghost predicate FaultyAmong(ms: Methods, order: seq<string>, runs: nat) {
    exists n :: 0 <= n < |order| && n < runs && Faulty(ms, order[n])
  }

  /** First in, first out: what is left of the original order comes before everything queued again. */
  ghost function Ahead(ms: Methods, order: seq<string>, runs: nat): seq<string> -> bool {
    worklist =>
      && (runs <= |order| ==> order[runs..] <= worklist)
      && !FaultyAmong(ms, order, runs)
      && forall k :: k in worklist ==> k in ms
  }

  lemma NothingTabled(ms: Methods)
    ensures Tabled(ms)(Tables(map[], map[], map[]), 0) && AllKnown(ms)(map[])
  {
    var t := Tables(map[], map[], map[]);
    assert Facts(t) == {} && Solid(t);
    forall star ensures TablesLeq(t, star) {
    }
    assert BelowPathClosed(ms, t);
    assert forall f :: DependentsOf(map[], f) <= ms.Keys;
  }

  lemma StartIdle(ms: Methods, s: Snapshot, budget: nat)
    requires Distinct(s.worklist) && Elements(s.worklist) == ms.Keys
    requires s == Snapshot(Tables(map[], map[], map[]), map[], map[], s.worklist, Elements(s.worklist), {}, 0, false,
                           false)
    ensures Idle(ms, budget)(s) && Booked(ms, budget, None)(s, [], [])
  {
    NothingTabled(ms);
    NothingDerived(ms, budget);
    MakeAccounted(ms, budget, s, [], []);
    assert Listed(s, []) && AllGrounded(ms, s.tables, []) && SkippedKnown(ms, s, [], None);
  }

  lemma QueueFits(ms: Methods, order: seq<string>, s: Snapshot, budget: nat)
    requires Idle(ms, budget)(s) && Elements(order) == ms.Keys
    ensures |s.worklist| <= |order|
  {
    IdleParts(ms, budget, s);
    DistinctBySize(s.worklist);
    DistinctBySize(order);
    SubsetSize(Elements(s.worklist), Elements(order));
  }

  /** Each new fact makes at most as many rounds necessary as there are methods. */
  predicate RoundsFit(order: seq<string>, runs: nat, waiting: nat, facts: nat) {
    runs + waiting <= |order| * (1 + facts)
  }

  lemma RoundCounts(order: seq<string>, runs: nat, waiting: nat, facts: nat, waiting': nat, facts': nat)
    requires RoundsFit(order, runs, waiting, facts) && waiting > 0 && waiting' <= |order|
    requires facts' > facts || (facts' == facts && waiting' < waiting)
    ensures RoundsFit(order, runs + 1, waiting', facts')
  {
    if facts' > facts {
      MoreRounds(|order|, 1 + facts, 1 + facts');
    }
  }

  lemma MoreRounds(n: nat, a: nat, b: nat)
    requires a < b
    ensures n * a + n <= n * b
  {
    Distributes(n, a, b - a);
    Distributes(n, 1, b - a - 1);
  }

  lemma Distributes(n: nat, a: nat, b: nat)
    ensures n * (a + b) == n * a + n * b
  {
  }

  lemma KnownQueue(ms: Methods, s: Snapshot, budget: nat)
    requires Idle(ms, budget)(s)
    ensures forall k :: k in s.worklist ==> k in ms
  {
    IdleParts(ms, budget, s);
    forall k | k in s.worklist ensures k in ms {
      assert k in Elements(s.worklist);
    }
  }

  lemma StartAhead(ms: Methods, order: seq<string>)
    requires Elements(order) == ms.Keys
    ensures Ahead(ms, order, 0)(order)
  {
    assert order[0..] == order;
    forall k | k in order ensures k in ms {
      assert k in Elements(order);
    }
  }

  lemma EveryMethodIsAmong(ms: Methods, order: seq<string>)
    requires Elements(order) == ms.Keys
    ensures |order| <= MAX_RUNS ==> (FaultyAmong(ms, order, MAX_RUNS) <==> exists k :: Faulty(ms, k))
  {
    if |order| <= MAX_RUNS {
      forall k | Faulty(ms, k) ensures FaultyAmong(ms, order, MAX_RUNS) {
        assert k in Elements(order);
        var n :| 0 <= n < |order| && order[n] == k;
        assert Faulty(ms, order[n]);
      }
    }
  }

  /** The next method is faulty exactly when it is one of the order not taken before. */
  lemma NextAhead(ms: Methods, order: seq<string>, runs: nat, worklist: seq<string>)
    requires Ahead(ms, order, runs)(worklist) && worklist != [] && runs < MAX_RUNS && Elements(order) == ms.Keys
    ensures Faulty(ms, worklist[0]) ==> FaultyAmong(ms, order, MAX_RUNS)
    ensures runs < |order| ==> worklist[0] == order[runs]
  {
    if runs < |order| {
      assert order[runs..][0] == order[runs];
    } else {
      assert worklist[0] in Elements(order);
    }
  }

  lemma StaysAhead(ms: Methods, order: seq<string>, runs: nat, before: seq<string>, after: seq<string>)
    requires Ahead(ms, order, runs)(before) && before != [] && !Faulty(ms, before[0])
    requires runs < |order| ==> before[0] == order[runs]
    requires before[1..] <= after && forall k :: k in after ==> k in ms
    ensures Ahead(ms, order, runs + 1)(after)
  {
    if runs < |order| {
      assert order[runs + 1..] == order[runs..][1..];
      assert order[runs..][1..] <= before[1..];
    }
  }

  /** When the loop ends, the order has been gone through as far as the number of runs allows. */
  lemma AllTaken(ms: Methods, order: seq<string>, runs: nat, worklist: seq<string>)
    requires Ahead(ms, order, runs)(worklist) && (worklist == [] || runs == MAX_RUNS) && runs <= MAX_RUNS
    ensures !FaultyAmong(ms, order, MAX_RUNS)
  {
    assert runs < |order| ==> |order[runs..]| > 0;
  }

  /** A propagation from scratch. */
  method PropagateAnew(ms: Methods, order: seq<string>, budget: nat) returns (raised: bool)
    requires ValidMethods(ms) && Distinct(order) && Elements(order) == ms.Keys
    ensures raised <==> FaultyAmong(ms, order, MAX_RUNS)
  {
    var engine := new Engine(order);
    raised := engine.BuildFlows(ms, order, budget);
  }

  /** One method without instructions, as an interface has them, makes the whole propagation raise. */
  method AbstractMethodRaises(k: string, isStatic: bool, file: string, budget: nat) returns (raised: bool)
    ensures raised
  {
    var ms: Methods := map[k := Method(Program([], []), 0, isStatic, file, map[])];
    assert Elements([k]) == ms.Keys;
    raised := PropagateAnew(ms, [k], budget);
    FirstRaises(ms, [k]);
  }

  lemma FirstRaises(ms: Methods, order: seq<string>)
    requires order != [] && Faulty(ms, order[0])
    ensures FaultyAmong(ms, order, MAX_RUNS)
  {
  }

  lemma FactsCapped(ms: Methods, s: Snapshot, budget: nat)
    requires Idle(ms, budget)(s)
    ensures s.facts == |Facts(s.tables)| <= MAX_FACTS
  {
    IdleParts(ms, budget, s);
    TabledParts(ms, s.tables, s.facts);
  }

  lemma LimitRaised(ms: Methods, s: Snapshot, budget: nat, flows: seq<(string, Flow)>, skipped: seq<string>)
    requires Idle(ms, budget)(s) && Booked(ms, budget, None)(s, flows, skipped)
    ensures Idle(ms, budget)(s.(limited := true)) && Booked(ms, budget, None)(s.(limited := true), flows, skipped)
  {
    IdleParts(ms, budget, s);
    TabledParts(ms, s.tables, s.facts);
    RelaxingKeeps(ms, s, s.(limited := true), None, budget);
    MakeIdle(ms, budget, s.(limited := true));
    StillBooked(ms, budget, s, s.(limited := true), flows, skipped);
  }

  ghost predicate KeyListed(flows: seq<(string, Flow)>, key: FlowKey) {
    exists i :: 0 <= i < |flows| && key == KeyOf(flows[i].0, flows[i].1)
  }

  /** Every flow that analysing a method with the tables finds is in the list. */
  ghost predicate AllFlowsListed(ms: Methods, t: Tables, budget: nat, flows: seq<(string, Flow)>) {
    forall k, f :: Analysed(ms, k) && WellFormed(ms[k].program) && f in FoundIn(ms, k, t, budget).flows ==>
      KeyListed(flows, KeyOf(k, f))
  }

  /** The key is that of a flow which some path carries under the given tables. */
  ghost predicate KeyGrounded(ms: Methods, t: Tables, key: FlowKey) {
    exists k, f :: Grounded(ms, t, k, f) && key == KeyOf(k, f)
  }

  /** What is listed is exactly what paths carry. */
  ghost predicate ListsExactly(ms: Methods, t: Tables, flows: seq<(string, Flow)>) {
    forall key :: KeyListed(flows, key) <==> KeyGrounded(ms, t, key)
  }

  lemma Finish(ms: Methods, s: Snapshot, budget: nat, flows: seq<(string, Flow)>, skipped: seq<string>)
    requires Idle(ms, budget)(s) && Booked(ms, budget, None)(s, flows, skipped)
    requires s.limited || s.worklist == []
    ensures s.facts == |Facts(s.tables)| <= MAX_FACTS && Solid(s.tables)
    ensures !s.limited ==> Closed(ms, s.tables, budget) && AllFlowsListed(ms, s.tables, budget, flows)
    ensures !s.limited && !s.warned ==> Complete(ms, s.tables, budget)
    ensures !s.limited ==> forall k :: k in ms && !Analysed(ms, k) ==> k in skipped
    ensures AllUnguarded(ms) ==> BelowPathClosed(ms, s.tables) && AllGrounded(ms, s.tables, flows)
    ensures |flows| <= MAX_FLOWS && Accounted(ms, budget)(s, flows, skipped) && Derived(ms, budget)(s.tables)
  {
    FinishTables(ms, s, budget);
    FinishLists(ms, s, budget, flows, skipped);
  }

  lemma FinishTables(ms: Methods, s: Snapshot, budget: nat)
    requires Idle(ms, budget)(s) && (s.limited || s.worklist == [])
    ensures s.facts == |Facts(s.tables)| <= MAX_FACTS && Solid(s.tables) && Derived(ms, budget)(s.tables)
    ensures !s.limited ==> Closed(ms, s.tables, budget) && (!s.warned ==> Complete(ms, s.tables, budget))
    ensures AllUnguarded(ms) ==> BelowPathClosed(ms, s.tables)
  {
    IdleParts(ms, budget, s);
    TabledParts(ms, s.tables, s.facts);
    if !s.limited {
      NothingQueued(s);
      FinishClosed(ms, s, budget);
    }
  }

  lemma FinishLists(ms: Methods, s: Snapshot, budget: nat, flows: seq<(string, Flow)>, skipped: seq<string>)
    requires Idle(ms, budget)(s) && Booked(ms, budget, None)(s, flows, skipped) && (s.limited || s.worklist == [])
    ensures !s.limited ==> AllFlowsListed(ms, s.tables, budget, flows)
    ensures !s.limited ==> forall k :: k in ms && !Analysed(ms, k) ==> k in skipped
    ensures |flows| <= MAX_FLOWS && Accounted(ms, budget)(s, flows, skipped)
    ensures AllUnguarded(ms) ==> AllGrounded(ms, s.tables, flows)
  {
    BookedParts(ms, budget, s, flows, skipped);
    IdleParts(ms, budget, s);
    if !s.limited {
      NothingQueued(s);
      FinishListed(ms, s, budget, flows);
    }
  }

  lemma NothingQueued(s: Snapshot)
    requires QueueTidy(s) && s.worklist == []
    ensures s.queued == {}
  {
  }

  lemma BookedParts(ms: Methods, budget: nat, s: Snapshot, flows: seq<(string, Flow)>, skipped: seq<string>)
    requires Booked(ms, budget, None)(s, flows, skipped)
    ensures |flows| <= MAX_FLOWS && Listed(s, flows) && AllGrounded(ms, s.tables, flows)
    ensures SkippedKnown(ms, s, skipped, None) && Accounted(ms, budget)(s, flows, skipped)
  {
    assert Listed(s, flows) && AllGrounded(ms, s.tables, flows) && SkippedKnown(ms, s, skipped, None);
  }

  lemma FinishClosed(ms: Methods, s: Snapshot, budget: nat)
    requires Progress(ms, s, None, budget) && s.queued == {} && !s.limited
    ensures Closed(ms, s.tables, budget) && (!s.warned ==> Complete(ms, s.tables, budget))
  {
    forall k | Analysed(ms, k) ensures UpToDate(ms, s, k, budget) && Reflected(ms, s, k, budget) {
      assert k !in s.queued;
    }
  }

  lemma FinishListed(ms: Methods, s: Snapshot, budget: nat, flows: seq<(string, Flow)>)
    requires Progress(ms, s, None, budget) && s.queued == {} && !s.limited && Listed(s, flows)
    ensures AllFlowsListed(ms, s.tables, budget, flows)
  {
    forall k, f | Analysed(ms, k) && WellFormed(ms[k].program) && f in FoundIn(ms, k, s.tables, budget).flows
      ensures KeyListed(flows, KeyOf(k, f))
    {
      assert Reflected(ms, s, k, budget);
      assert FlowsSeen(FoundIn(ms, k, s.tables, budget), k, s.seen);
      assert KeyOf(k, f) in s.seen;
    }
  }

  /** Without a cap hit and without guarded forms the tables are the least ones closed under paths, and the flows are
   those of paths. */
  lemma FinishExactly(ms: Methods, t: Tables, budget: nat, flows: seq<(string, Flow)>)
    requires AllUnguarded(ms) && Closed(ms, t, budget) && Complete(ms, t, budget) && BelowPathClosed(ms, t)
    requires AllFlowsListed(ms, t, budget, flows) && AllGrounded(ms, t, flows)
    ensures LeastPathClosed(ms, t) && ListsExactly(ms, t, flows)
  {
    ClosedIsPathClosed(ms, t, budget);
    forall key ensures KeyListed(flows, key) <==> KeyGrounded(ms, t, key) {
      if KeyListed(flows, key) {
        var i :| 0 <= i < |flows| && key == KeyOf(flows[i].0, flows[i].1);
        assert flows[i] in flows;
      }
      if KeyGrounded(ms, t, key) {
        var k, f :| Grounded(ms, t, k, f) && key == KeyOf(k, f);
        GroundedIsFound(ms, t, k, f, budget);
      }
    }
  }

  /** A flow of method k with the given sink, sink line and source is listed. */
  ghost predicate Lists(flows: seq<(string, Flow)>, k: string, f: Flow) {
    exists i :: 0 <= i < |flows| && flows[i].0 == k && SameFlow(flows[i].1, f)
  }

  /** The same sink call and the same source: the register and the kind of the source may differ. */
  predicate SameFlow(f: Flow, g: Flow) {
    && f.line == g.line && f.sink == g.sink
    && f.trace.methodKey == g.trace.methodKey && f.trace.line == g.trace.line && f.trace.file == g.trace.file
  }

  /** Flows are identified by the method, the sink call and the source, and by nothing else. */
  lemma KeyIdentifies(k: string, f: Flow, k': string, f': Flow)
    ensures KeyOf(k, f) == KeyOf(k', f') <==> k == k' && SameFlow(f, f')
  {
  }

  /** What chains that no guarded form can interrupt lead to is in the tables, or listed if it is a flow. */
  ghost function HoldsFirmChains(ms: Methods): (Tables, seq<(string, Flow)>) -> bool {
    (t: Tables, flows: seq<(string, Flow)>) =>
      forall k, f :: Chains.GivesFirmly(ms, t, k, f) ==>
        Chains.Kept(ms, t, k, f) && (f.FlowFact? ==> Lists(flows, k, f.flow))
  }

  /** The tables are the least ones that hold what chains lead to, and the flows listed are those of chains. */
  ghost function HoldsExactlyChains(ms: Methods): (Tables, seq<(string, Flow)>) -> bool {
    (t: Tables, flows: seq<(string, Flow)>) =>
      && Chains.ChainClosed(ms, t) && (forall star :: Chains.ChainClosed(ms, star) ==> TablesLeq(t, star))
      && (forall k, f :: Chains.Gives(ms, t, k, FlowFact(f)) ==> Lists(flows, k, f))
      && (forall e :: e in flows ==> Chains.Gives(ms, t, e.0, FlowFact(e.1)))
  }

  lemma FinishFirmly(ms: Methods, t: Tables, budget: nat, flows: seq<(string, Flow)>)
    requires Closed(ms, t, budget) && Complete(ms, t, budget) && AllFlowsListed(ms, t, budget, flows)
    ensures HoldsFirmChains(ms)(t, flows)
  {
    forall k, f | Chains.GivesFirmly(ms, t, k, f)
      ensures Chains.Kept(ms, t, k, f) && (f.FlowFact? ==> Lists(flows, k, f.flow))
    {
      Chains.ClosedUnderFirmChains(ms, t, budget, k, f);
      if f.FlowFact? {
        Chains.FirmlyFound(ms, t, k, f, budget);
        Chains.OneIsAmong(FoundIn(ms, k, t, budget), f);
        ListedByKey(flows, k, f.flow);
      }
    }
  }

  /** All that is known once the loop has ended. */
  lemma Concluded(ms: Methods, order: seq<string>, budget: nat, s: Snapshot, t: Tables, flows: seq<(string, Flow)>,
                  skipped: seq<string>)
    requires Idle(ms, budget)(s) && Booked(ms, budget, None)(s, flows, skipped) && t == s.tables
    requires s.limited || s.worklist == []
    requires s.limited ==> s.facts >= MAX_FACTS || |flows| >= MAX_FLOWS || RunsSpent(order)(s.facts)
    ensures s.facts == |Facts(t)| <= MAX_FACTS && Solid(t)
    ensures !s.limited ==> Closed(ms, t, budget) && AllFlowsListed(ms, t, budget, flows)
    ensures !s.limited && !s.warned ==> Complete(ms, t, budget)
    ensures !s.limited ==> forall k :: k in ms && !Analysed(ms, k) ==> k in skipped
    ensures AllUnguarded(ms) ==> BelowPathClosed(ms, t) && AllGrounded(ms, t, flows)
    ensures !s.limited && !s.warned ==> HoldsFirmChains(ms)(t, flows)
    ensures AllUnguarded(ms) && !s.limited && !s.warned ==>
              LeastPathClosed(ms, t) && ListsExactly(ms, t, flows) && HoldsExactlyChains(ms)(t, flows)
    ensures s.warned ==> CutSomewhere(ms, t, budget)
    ensures AllUnguarded(ms) && HasRoom(ms, order, budget) ==> !s.limited && !s.warned
    ensures Derived(ms, budget)(t) && AllFound(ms, t, budget, flows)
    ensures |flows| <= MAX_FLOWS && KeysOnce(s.seen, flows) && SetAsideRightly(ms, skipped)
  {
    Finish(ms, s, budget, flows, skipped);
    AccountedParts(ms, budget, s, flows, skipped);
    FinishWithRoom(ms, order, budget, t, s.seen, flows, s.facts, s.limited, s.warned);
    FinishUncut(ms, t, budget, flows, s.limited, s.warned);
  }

  /** So many facts may call for more runs than there are. */
  ghost function RunsSpent(order: seq<string>): nat -> bool {
    (facts: nat) => |order| * (1 + facts) > MAX_RUNS
  }

  lemma FinishUncut(ms: Methods, t: Tables, budget: nat, flows: seq<(string, Flow)>, limited: bool, warned: bool)
    requires !limited ==> Closed(ms, t, budget) && AllFlowsListed(ms, t, budget, flows)
    requires !limited && !warned ==> Complete(ms, t, budget)
    requires AllUnguarded(ms) ==> BelowPathClosed(ms, t) && AllGrounded(ms, t, flows)
    ensures !limited && !warned ==> HoldsFirmChains(ms)(t, flows)
    ensures AllUnguarded(ms) && !limited && !warned ==>
              LeastPathClosed(ms, t) && ListsExactly(ms, t, flows) && HoldsExactlyChains(ms)(t, flows)
  {
    if !limited && !warned {
      FinishFirmly(ms, t, budget, flows);
      if AllUnguarded(ms) {
        FinishExactly(ms, t, budget, flows);
        FinishByChains(ms, t, flows);
      }
    }
  }

  lemma FinishWithRoom(ms: Methods, order: seq<string>, budget: nat, t: Tables, seen: set<FlowKey>,
                       flows: seq<(string, Flow)>, facts: nat, limited: bool, warned: bool)
    requires facts == |Facts(t)| && Solid(t) && KeysOnce(seen, flows)
    requires AllUnguarded(ms) ==> BelowPathClosed(ms, t) && AllGrounded(ms, t, flows)
    requires limited ==> facts >= MAX_FACTS || |flows| >= MAX_FLOWS || RunsSpent(order)(facts)
    requires warned ==> CutSomewhere(ms, t, budget)
    ensures AllUnguarded(ms) && HasRoom(ms, order, budget) ==> !limited && !warned
  {
    if AllUnguarded(ms) && HasRoom(ms, order, budget) {
      RoomIsEnough(ms, order, budget, t, seen, flows);
    }
  }

  lemma ListedByKey(flows: seq<(string, Flow)>, k: string, f: Flow)
    requires KeyListed(flows, KeyOf(k, f))
    ensures Lists(flows, k, f)
  {
    var i :| 0 <= i < |flows| && KeyOf(k, f) == KeyOf(flows[i].0, flows[i].1);
    KeyIdentifies(k, f, flows[i].0, flows[i].1);
  }

  lemma FinishByChains(ms: Methods, t: Tables, flows: seq<(string, Flow)>)
    requires AllUnguarded(ms) && LeastPathClosed(ms, t) && ListsExactly(ms, t, flows) && AllGrounded(ms, t, flows)
    ensures HoldsExactlyChains(ms)(t, flows)
  {
    Chains.ClosedUnderChains(ms, t);
    forall star | Chains.ChainClosed(ms, star) ensures TablesLeq(t, star) {
      Chains.ClosedUnderChains(ms, star);
    }
    forall k, f | Chains.Gives(ms, t, k, FlowFact(f)) ensures Lists(flows, k, f) {
      Chains.GroundedByChains(ms, t, k, f);
      assert KeyGrounded(ms, t, KeyOf(k, f));
      ListedByKey(flows, k, f);
    }
    forall e | e in flows ensures Chains.Gives(ms, t, e.0, FlowFact(e.1)) {
      Chains.GroundedByChains(ms, t, e.0, e.1);
    }
  }

  /** In whatever orders two propagations went, if no cap was hit they list the same flows. */
  lemma OrderDoesNotMatter(ms: Methods, t: Tables, t': Tables, flows: seq<(string, Flow)>,
                           flows': seq<(string, Flow)>, key: FlowKey)
    requires AllUnguarded(ms) && Solid(t) && Solid(t') && LeastPathClosed(ms, t) && LeastPathClosed(ms, t')
    requires ListsExactly(ms, t, flows) && ListsExactly(ms, t', flows')
    ensures KeyListed(flows, key) <==> KeyListed(flows', key)
  {
    assert KeyListed(flows, key) <==> KeyGrounded(ms, t, key);
    assert KeyListed(flows', key) <==> KeyGrounded(ms, t', key);
    forall k, f ensures Grounded(ms, t, k, f) <==> Grounded(ms, t', k, f) {
      LeastIsUnique(ms, t, t', k, f);
    }
  }

  // ----- inputs that hit no cap -----

  /** Every analysis against tables within these ones ends before its step budget does. */
  ghost predicate EnoughSteps(ms: Methods, budget: nat, star: Tables) {
    forall k, t :: TablesLeq(t, star) && Analysed(ms, k) && WellFormed(ms[k].program) ==>
      AnalysisOf(ms, k, t, budget).queue == []
  }

  /** Some tables closed under paths are small enough for the caps, and so are the flows that paths carry under them. */
  ghost predicate Roomy(ms: Methods, order: seq<string>, budget: nat, star: Tables, keys: set<FlowKey>) {
    && PathClosed(ms, star) && EnoughSteps(ms, budget, star)
    && |Facts(star)| < MAX_FACTS && |order| * (1 + |Facts(star)|) <= MAX_RUNS
    && |keys| < MAX_FLOWS && forall key :: KeyGrounded(ms, star, key) ==> key in keys
  }

  ghost predicate HasRoom(ms: Methods, order: seq<string>, budget: nat) {
    exists star, keys :: Roomy(ms, order, budget, star, keys)
  }

  /** A package with room comes nowhere near a cap or a budget. */
  lemma RoomIsEnough(ms: Methods, order: seq<string>, budget: nat, t: Tables, seen: set<FlowKey>,
                     flows: seq<(string, Flow)>)
    requires AllUnguarded(ms) && HasRoom(ms, order, budget)
    requires Solid(t) && BelowPathClosed(ms, t) && AllGrounded(ms, t, flows) && KeysOnce(seen, flows)
    ensures |Facts(t)| < MAX_FACTS && |flows| < MAX_FLOWS && |order| * (1 + |Facts(t)|) <= MAX_RUNS
    ensures !CutSomewhere(ms, t, budget)
  {
    var star, keys :| Roomy(ms, order, budget, star, keys);
    assert TablesLeq(t, star);
    LessHasLess(t, star);
    SubsetSize(Facts(t), Facts(star));
    MoreRoom(|order|, 1 + |Facts(t)|, 1 + |Facts(star)|);
    GroundedStay(ms, t, star, flows);
    KeysFit(ms, star, seen, flows, keys);
    if CutSomewhere(ms, t, budget) {
      StillCut(ms, t, star, budget);
    }
  }

  lemma MoreRoom(n: nat, a: nat, b: nat)
    requires a <= b
    ensures n * a <= n * b
  {
    Distributes(n, a, b - a);
  }

  lemma KeysFit(ms: Methods, t: Tables, seen: set<FlowKey>, flows: seq<(string, Flow)>, keys: set<FlowKey>)
    requires AllUnguarded(ms) && AllGrounded(ms, t, flows) && KeysOnce(seen, flows)
    requires forall key :: KeyGrounded(ms, t, key) ==> key in keys
    ensures |flows| <= |keys|
  {
    var listed := seq(|flows|, i requires 0 <= i < |flows| => KeyOf(flows[i].0, flows[i].1));
    DistinctBySize(listed);
    forall key | key in Elements(listed) ensures key in keys {
      var i :| 0 <= i < |flows| && listed[i] == key;
      assert flows[i] in flows;
      assert Grounded(ms, t, flows[i].0, flows[i].1);
      assert KeyGrounded(ms, t, key);
    }
    SubsetSize(Elements(listed), keys);
  }

  lemma ProcessingDone(ms: Methods, s: Snapshot, k: string, final: Config, budget: nat)
    requires Processing(ms, k, final, budget)(s)
    requires s.limited || Published(final.found, ms, k, s.tables)
    ensures Idle(ms, budget)(s)
  {
    ProcessingParts(ms, k, final, budget, s);
    CurrentDone(ms, s, k, final, budget);
    MakeIdle(ms, budget, s);
  }

  /** The listed flows are those seen, unless the list was full. */
  ghost predicate Listed(s: Snapshot, flows: seq<(string, Flow)>) {
    s.limited || forall key :: key in s.seen ==> KeyListed(flows, key)
  }

  lemma OneMoreKey(seen: set<FlowKey>, flows: seq<(string, Flow)>, k: string, f: Flow)
    requires KeysOnce(seen, flows) && KeyOf(k, f) !in seen
    ensures KeysOnce(seen + {KeyOf(k, f)}, flows + [(k, f)])
  {
  }

  lemma OneMoreListed(s: Snapshot, s': Snapshot, flows: seq<(string, Flow)>, k: string, f: Flow)
    requires Listed(s, flows) && s' == s.(seen := s.seen + {KeyOf(k, f)})
    ensures Listed(s', flows + [(k, f)])
    ensures forall e :: e in flows + [(k, f)] <==> e in flows || e == (k, f)
  {
    var more := flows + [(k, f)];
    if !s'.limited {
      forall key | key in s'.seen ensures KeyListed(more, key) {
        if key in s.seen {
          var i :| 0 <= i < |flows| && key == KeyOf(flows[i].0, flows[i].1);
          assert more[i] == flows[i];
        } else {
          assert more[|flows|] == (k, f);
        }
      }
    }
  }

  ghost predicate AllGrounded(ms: Methods, t: Tables, flows: seq<(string, Flow)>) {
    AllUnguarded(ms) ==> forall e :: e in flows ==> Grounded(ms, t, e.0, e.1)
  }

  ghost predicate SkippedKnown(ms: Methods, s: Snapshot, skipped: seq<string>, current: Option<string>) {
    forall k :: k in ms && k !in s.queued && ms[k].lines > MAX_LINES ==> k in skipped || current == Some(k)
  }

  /** One more dependent for each of the given keys. */
  method Subscribe(d: Dependents, keys: set<string>, k: string) returns (r: Dependents)
    ensures forall f :: DependentsOf(r, f) == DependentsOf(d, f) + if f in keys then {k} else {}
  {
    r := d;
    var order := Enumerate(keys);
    var i := 0;
    while i < |order|
      invariant 0 <= i <= |order|
      invariant forall f :: DependentsOf(r, f) == DependentsOf(d, f) + if f in Elements(order[..i]) then {k} else {}
    {
      TakeOneMore(order, i);
      r := r[order[i] := DependentsOf(r, order[i]) + {k}];
      i := i + 1;
    }
    assert order[..i] == order;
  }

  lemma QueuePopped(s: Snapshot, s': Snapshot, k: string)
    requires QueueTidy(s) && s.worklist != [] && k == s.worklist[0]
    requires s' == s.(worklist := s.worklist[1..], queued := s.queued - {k})
    ensures QueueTidy(s') && k in s.queued
  {
    assert s.worklist == [k] + s.worklist[1..];
    assert k in Elements(s.worklist);
    assert Elements(s.worklist[1..]) == s.queued - {k};
  }

  lemma Popped(ms: Methods, s: Snapshot, s': Snapshot, k: string, budget: nat, flows: seq<(string, Flow)>,
               skipped: seq<string>)
    requires Idle(ms, budget)(s) && Booked(ms, budget, None)(s, flows, skipped)
    requires s.worklist != [] && k == s.worklist[0]
    requires s' == s.(worklist := s.worklist[1..], queued := s.queued - {k})
    ensures Taken(ms, k, budget)(s') && Booked(ms, budget, Some(k))(s', flows, skipped)
    ensures k in ms
  {
    PoppedTaken(ms, s, s', k, budget);
    PoppedBooked(ms, s, s', k, budget, flows, skipped);
  }

  lemma PoppedTaken(ms: Methods, s: Snapshot, s': Snapshot, k: string, budget: nat)
    requires Idle(ms, budget)(s) && s.worklist != [] && k == s.worklist[0]
    requires s' == s.(worklist := s.worklist[1..], queued := s.queued - {k})
    ensures Taken(ms, k, budget)(s') && k in ms && k in s.queued
  {
    IdleParts(ms, budget, s);
    QueuePopped(s, s', k);
    PoppedProgress(ms, s, s', k, budget);
    MakeTaken(ms, k, budget, s');
  }

  lemma PoppedProgress(ms: Methods, s: Snapshot, s': Snapshot, k: string, budget: nat)
    requires Progress(ms, s, None, budget) && s' == s.(worklist := s'.worklist, queued := s.queued - {k})
    ensures Progress(ms, s', Some(k), budget)
  {
  }

  lemma PoppedBooked(ms: Methods, s: Snapshot, s': Snapshot, k: string, budget: nat, flows: seq<(string, Flow)>,
                     skipped: seq<string>)
    requires Booked(ms, budget, None)(s, flows, skipped)
    requires s' == s.(worklist := s'.worklist, queued := s.queued - {k})
    ensures Booked(ms, budget, Some(k))(s', flows, skipped)
  {
    assert Listed(s, flows) && SkippedKnown(ms, s, skipped, None);
    StillAccounted(ms, budget, s, s', flows, skipped);
    assert Listed(s', flows) && SkippedKnown(ms, s', skipped, Some(k));
  }

  lemma NotAnalysed(ms: Methods, s: Snapshot, k: string, budget: nat)
    requires Progress(ms, s, Some(k), budget) && !Analysed(ms, k)
    ensures Progress(ms, s, None, budget)
  {
  }

  /** A method with too many lines is only remembered. */
  lemma SetAside(ms: Methods, s: Snapshot, k: string, budget: nat, flows: seq<(string, Flow)>, skipped: seq<string>,
                 skipped': seq<string>)
    requires Taken(ms, k, budget)(s) && Booked(ms, budget, Some(k))(s, flows, skipped) && !Analysed(ms, k)
    requires skipped' == if k in skipped then skipped else skipped + [k]
    ensures Idle(ms, budget)(s) && Booked(ms, budget, None)(s, flows, skipped')
  {
    TakenParts(ms, k, budget, s);
    NotAnalysed(ms, s, k, budget);
    MakeIdle(ms, budget, s);
    SetAsideBooked(ms, s, k, budget, flows, skipped, skipped');
  }

  lemma SetAsideBooked(ms: Methods, s: Snapshot, k: string, budget: nat, flows: seq<(string, Flow)>,
                       skipped: seq<string>, skipped': seq<string>)
    requires Booked(ms, budget, Some(k))(s, flows, skipped) && k in ms && ms[k].lines > MAX_LINES
    requires skipped' == if k in skipped then skipped else skipped + [k]
    ensures Booked(ms, budget, None)(s, flows, skipped')
  {
    assert SkippedKnown(ms, s, skipped, Some(k));
    AccountedParts(ms, budget, s, flows, skipped);
    MakeAccounted(ms, budget, s, flows, skipped');
    assert SkippedKnown(ms, s, skipped', None);
  }

  lemma ListedStays(ms: Methods, budget: nat, s: Snapshot, flows: seq<(string, Flow)>, skipped: seq<string>, k: string)
    requires Booked(ms, budget, Some(k))(s, flows, skipped)
    ensures |flows| <= MAX_FLOWS && Listed(s, flows) && KeysOnce(s.seen, flows)
  {
    assert Listed(s, flows);
    AccountedParts(ms, budget, s, flows, skipped);
  }

  /** The step from a method just taken to one registered with what its analysis found. */
  ghost function Enrols(k: string, final: Config): (Snapshot, Snapshot) -> bool {
    (s: Snapshot, s': Snapshot) =>
      && s' == s.(readers := s'.readers, callers := s'.callers, seen := s'.seen, limited := s'.limited,
                  warned := s'.warned)
      && s.seen <= s'.seen && (s.limited ==> s'.limited) && s'.warned == (s.warned || final.queue != [])
      && (forall f ::
             DependentsOf(s'.readers, f)
             == DependentsOf(s.readers, f) + if f in final.found.fieldReads then {k} else {})
      && (forall m ::
             DependentsOf(s'.callers, m) == DependentsOf(s.callers, m) + if m in final.found.called then {k} else {})
      && (s'.limited || FlowsSeen(final.found, k, s'.seen))
  }

  lemma MakeEnrols(s: Snapshot, s': Snapshot, k: string, final: Config)
    requires s' == s.(readers := s'.readers, callers := s'.callers, seen := s'.seen, limited := s'.limited,
                      warned := s'.warned)
    requires s.seen <= s'.seen && (s.limited ==> s'.limited) && s'.warned == (s.warned || final.queue != [])
    requires forall f ::
                 DependentsOf(s'.readers, f)
                 == DependentsOf(s.readers, f) + if f in final.found.fieldReads then {k} else {}
    requires forall m ::
                 DependentsOf(s'.callers, m) == DependentsOf(s.callers, m) + if m in final.found.called then {k} else {}
    requires s'.limited || FlowsSeen(final.found, k, s'.seen)
    ensures Enrols(k, final)(s, s')
  {
  }

  lemma ConsistentRegistered(ms: Methods, s: Snapshot, s': Snapshot, k: string, final: Config, budget: nat)
    requires Taken(ms, k, budget)(s) && Enrols(k, final)(s, s')
    ensures Consistent(ms, s')
  {
    TakenParts(ms, k, budget, s);
    EnrolsOnly(s, s', k, final);
    ConsistentWithMore(ms, s, s', k);
  }

  lemma EnrolsOnly(s: Snapshot, s': Snapshot, k: string, final: Config)
    requires Enrols(k, final)(s, s')
    ensures s' == s.(readers := s'.readers, callers := s'.callers, seen := s'.seen, limited := s'.limited,
                     warned := s'.warned)
    ensures forall f :: DependentsOf(s'.readers, f) <= DependentsOf(s.readers, f) + {k}
    ensures forall m :: DependentsOf(s'.callers, m) <= DependentsOf(s.callers, m) + {k}
  {
  }

  lemma ConsistentWithMore(ms: Methods, s: Snapshot, s': Snapshot, k: string)
    requires Consistent(ms, s) && k in ms
    requires s' == s.(readers := s'.readers, callers := s'.callers, seen := s'.seen, limited := s'.limited,
                      warned := s'.warned)
    requires forall f :: DependentsOf(s'.readers, f) <= DependentsOf(s.readers, f) + {k}
    requires forall m :: DependentsOf(s'.callers, m) <= DependentsOf(s.callers, m) + {k}
    ensures Consistent(ms, s')
  {
  }

  lemma ProgressRegistered(ms: Methods, s: Snapshot, s': Snapshot, k: string, final: Config, budget: nat)
    requires Taken(ms, k, budget)(s) && Enrols(k, final)(s, s')
    ensures Progress(ms, s', Some(k), budget)
  {
    TakenParts(ms, k, budget, s);
    RelaxingKeeps(ms, s, s', Some(k), budget);
  }

  lemma NowCurrent(ms: Methods, s: Snapshot, s': Snapshot, k: string, final: Config, budget: nat)
    requires Analysed(ms, k) && WellFormed(ms[k].program) && final == AnalysisOf(ms, k, s.tables, budget)
    requires Enrols(k, final)(s, s')
    ensures Current(ms, s', k, final, budget)
  {
  }

  /** Registered, and with its flows listed, a freshly analysed method is the current one. */
  lemma RegisteredNow(ms: Methods, s: Snapshot, s': Snapshot, k: string, final: Config, budget: nat)
    requires Analysed(ms, k) && WellFormed(ms[k].program) && final == AnalysisOf(ms, k, s.tables, budget)
    requires Taken(ms, k, budget)(s) && Enrols(k, final)(s, s')
    ensures Processing(ms, k, final, budget)(s')
  {
    ConsistentRegistered(ms, s, s', k, final, budget);
    ProgressRegistered(ms, s, s', k, final, budget);
    NowCurrent(ms, s, s', k, final, budget);
    TakenParts(ms, k, budget, s);
    NowSourced(ms, k, final, budget, s.tables);
    MakeProcessing(ms, k, final, budget, s');
  }

  lemma NowSourced(ms: Methods, k: string, final: Config, budget: nat, t: Tables)
    requires Analysed(ms, k) && WellFormed(ms[k].program) && final == AnalysisOf(ms, k, t, budget)
    ensures Sourced(ms, k, final, budget)(t)
  {
    assert TablesLeq(t, t);
  }

  lemma GroundedToo(ms: Methods, s: Snapshot, k: string, budget: nat, before: seq<(string, Flow)>,
                    after: seq<(string, Flow)>)
    requires Analysed(ms, k) && WellFormed(ms[k].program) && Consistent(ms, s) && AllGrounded(ms, s.tables, before)
    requires forall e :: e in after ==> e in before || (e.0 == k && e.1 in FoundIn(ms, k, s.tables, budget).flows)
    ensures AllGrounded(ms, s.tables, after)
  {
    TabledParts(ms, s.tables, s.facts);
    if AllUnguarded(ms) {
      forall e | e in after ensures Grounded(ms, s.tables, e.0, e.1) {
        if e !in before {
          FlowIsGrounded(ms, k, s.tables, s.tables, budget, e.1);
        }
      }
    }
  }

  lemma FlowsBooked(ms: Methods, s: Snapshot, s': Snapshot, k: string, final: Config, budget: nat,
                    before: seq<(string, Flow)>, after: seq<(string, Flow)>, skipped: seq<string>)
    requires Booked(ms, budget, Some(k))(s, before, skipped) && Enrols(k, final)(s, s')
    requires Analysed(ms, k) && WellFormed(ms[k].program) && Taken(ms, k, budget)(s)
    requires forall e :: e in after ==> e in before || (e.0 == k && e.1 in FoundIn(ms, k, s.tables, budget).flows)
    requires |after| <= MAX_FLOWS && Listed(s', after) && Accounted(ms, budget)(s', after, skipped)
    ensures Booked(ms, budget, None)(s', after, skipped)
  {
    TakenParts(ms, k, budget, s);
    assert AllGrounded(ms, s.tables, before) && SkippedKnown(ms, s, skipped, Some(k));
    GroundedToo(ms, s, k, budget, before, after);
    assert SkippedKnown(ms, s', skipped, None);
  }

  lemma GroundedStay(ms: Methods, t: Tables, t': Tables, flows: seq<(string, Flow)>)
    requires Solid(t) && TablesLeq(t, t') && AllGrounded(ms, t, flows)
    ensures AllGrounded(ms, t', flows)
  {
    if AllUnguarded(ms) {
      forall e | e in flows ensures Grounded(ms, t', e.0, e.1) {
        GroundedGrows(ms, t, t', e.0, e.1);
      }
    }
  }

  lemma StillBooked(ms: Methods, budget: nat, s: Snapshot, s': Snapshot, flows: seq<(string, Flow)>,
                    skipped: seq<string>)
    requires Booked(ms, budget, None)(s, flows, skipped)
    requires s'.seen == s.seen && s'.warned == s.warned && (s.limited ==> s'.limited) && s.queued <= s'.queued
    requires Solid(s.tables) && TablesLeq(s.tables, s'.tables)
    ensures Booked(ms, budget, None)(s', flows, skipped)
  {
    assert Listed(s, flows) && AllGrounded(ms, s.tables, flows) && SkippedKnown(ms, s, skipped, None);
    GroundedStay(ms, s.tables, s'.tables, flows);
    StillAccounted(ms, budget, s, s', flows, skipped);
    assert Listed(s', flows) && SkippedKnown(ms, s', skipped, None);
  }

  /** What method k passes on concerns known methods and stays within the bound. */
  ghost function Publishable(ms: Methods, k: string): Effects -> bool {
    e => Admissible(ms, ArgumentFacts(e, ms)) && Admissible(ms, WriteFacts(e)) && Admissible(ms, ReturnFacts(e, k))
  }

  lemma Admitted(ms: Methods, s: Snapshot, k: string, budget: nat)
    requires Analysed(ms, k) && WellFormed(ms[k].program) && Taken(ms, k, budget)(s)
    ensures Publishable(ms, k)(FoundIn(ms, k, s.tables, budget))
  {
    var e := FoundIn(ms, k, s.tables, budget);
    TakenParts(ms, k, budget, s);
    TabledParts(ms, s.tables, s.facts);
    if AllUnguarded(ms) {
      forall t | PathClosed(ms, t) ensures AllHeld(t, ArgumentFacts(e, ms)) && AllHeld(t, WriteFacts(e))
          && AllHeld(t, ReturnFacts(e, k)) {
        FoundIsHeld(ms, k, s.tables, t, budget);
      }
    }
    MakePublishable(ms, k, e);
  }

  lemma FoundIsHeld(ms: Methods, k: string, t: Tables, star: Tables, budget: nat)
    requires AllUnguarded(ms) && Analysed(ms, k) && WellFormed(ms[k].program)
    requires Solid(t) && BelowPathClosed(ms, t) && PathClosed(ms, star)
    ensures var e := FoundIn(ms, k, t, budget);
            AllHeld(star, ArgumentFacts(e, ms)) && AllHeld(star, WriteFacts(e)) && AllHeld(star, ReturnFacts(e, k))
  {
    FoundBelowPathClosed(ms, k, t, star, budget);
    PublishedIsHeld(FoundIn(ms, k, t, budget), ms, k, star);
  }

  lemma MakePublishable(ms: Methods, k: string, e: Effects)
    requires k in ms
    requires AllUnguarded(ms) ==> forall t :: PathClosed(ms, t) ==>
               AllHeld(t, ArgumentFacts(e, ms)) && AllHeld(t, WriteFacts(e)) && AllHeld(t, ReturnFacts(e, k))
    ensures Publishable(ms, k)(e)
  {
  }

  ghost function Fresh(ms: Methods, k: string, t: Tables, budget: nat): Config -> bool {
    c => Analysed(ms, k) && WellFormed(ms[k].program) && c == AnalysisOf(ms, k, t, budget)
  }

  lemma AccountedBefore(ms: Methods, budget: nat, s: Snapshot, k: string, flows: seq<(string, Flow)>,
                        skipped: seq<string>)
    requires Booked(ms, budget, Some(k))(s, flows, skipped)
    ensures Accounted(ms, budget)(s, flows, skipped)
  {
  }

  /** Everything the registration of a fresh analysis establishes. */
  lemma Enrolled(ms: Methods, s: Snapshot, s': Snapshot, k: string, final: Config, budget: nat,
                 before: seq<(string, Flow)>, after: seq<(string, Flow)>, skipped: seq<string>)
    requires Fresh(ms, k, s.tables, budget)(final)
    requires Taken(ms, k, budget)(s) && Booked(ms, budget, Some(k))(s, before, skipped) && Enrols(k, final)(s, s')
    requires forall e :: e in after ==> e in before || (e.0 == k && e.1 in final.found.flows)
    requires |after| <= MAX_FLOWS && Listed(s', after) && KeysOnce(s'.seen, after)
    ensures Processing(ms, k, final, budget)(s') && Booked(ms, budget, None)(s', after, skipped)
    ensures Publishable(ms, k)(final.found)
  {
    RegisteredNow(ms, s, s', k, final, budget);
    AccountedBefore(ms, budget, s, k, before, skipped);
    AccountedAfter(ms, budget, s, s', k, final, before, after, skipped);
    FlowsBooked(ms, s, s', k, final, budget, before, after, skipped);
    Admitted(ms, s, k, budget);
  }
}
