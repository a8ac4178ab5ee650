/**
 The summaries methods exchange: tainted parameters, static fields and return values. What analysing
 a method against given tables yields, what that depends on, and what closed tables are.
 */
module SummaryTables {
  import opened Wrappers
  import opened Descriptors
  import opened RegisterState
  import opened Transfer
  import opened Distributivity
  import opened RegisterFlow

  /** A parsed method: its instructions, its size in source lines, and the parameters seeded from outside. */
  datatype Method = Method(program: Program, lines: nat, isStatic: bool, file: string, seeds: map<Register, Traces>)

  type Methods = map<string, Method>

  datatype Tables = Tables(
    parameters: map<string, map<Register, Traces>>,
    fields: map<string, Traces>,
    returned: map<string, Traces>)

  const MAX_LINES: nat := 20000

  ghost predicate ValidMethods(ms: Methods) {
    forall k :: k in ms ==> ms[k].program.code == [] || WellFormed(ms[k].program)
  }

  /** Methods with too many lines are set aside; the others are analysed. */
  predicate Analysed(ms: Methods, k: string) {
    k in ms && ms[k].lines <= MAX_LINES
  }

  function ParametersOf(t: Tables, k: string): map<Register, Traces> {
    if k in t.parameters then t.parameters[k] else map[]
  }

  function Lookup(m: map<Register, Traces>, r: Register): Traces {
    if r in m then m[r] else {}
  }

  /** The registers a method starts with: its seeds and what callers are known to pass. */
  function InitialOf(parameters: map<Register, Traces>, seeds: map<Register, Traces>): Registers {
    map r | r in parameters.Keys + seeds.Keys :: Reg(r) := Lookup(parameters, r) + Lookup(seeds, r)
  }

  function EnvOf(ms: Methods, k: string, t: Tables): Env
    requires k in ms
  {
    Env(map j | j in ms :: ms[j].isStatic, t.fields, t.returned, k, ms[k].file)
  }

  function AnalysisOf(ms: Methods, k: string, t: Tables, budget: nat): Config
    requires k in ms && WellFormed(ms[k].program)
  {
    Analysis(ms[k].program, EnvOf(ms, k, t), InitialOf(ParametersOf(t, k), ms[k].seeds), budget)
  }

  function FoundIn(ms: Methods, k: string, t: Tables, budget: nat): Effects
    requires k in ms && WellFormed(ms[k].program)
  {
    AnalysisOf(ms, k, t, budget).found
  }

  // ----- what an analysis depends on -----

  /** Tables that agree on the method's parameters, the fields it read and the methods it called. */
  ghost predicate SameFor(t: Tables, t': Tables, k: string, looked: Effects) {
    && ParametersOf(t', k) == ParametersOf(t, k)
    && (forall f :: f in looked.fieldReads ==> Summaries(t'.fields, f) == Summaries(t.fields, f))
    && (forall m :: m in looked.called ==> Summaries(t'.returned, m) == Summaries(t.returned, m))
  }

  lemma AnalysisDependsOn(ms: Methods, k: string, t: Tables, t': Tables, budget: nat)
    requires k in ms && WellFormed(ms[k].program)
    requires SameFor(t, t', k, FoundIn(ms, k, t, budget))
    ensures AnalysisOf(ms, k, t', budget) == AnalysisOf(ms, k, t, budget)
  {
    var initial := InitialOf(ParametersOf(t, k), ms[k].seeds);
    var looked := FoundIn(ms, k, t, budget);
    RunDependsOn(ms[k].program, EnvOf(ms, k, t), EnvOf(ms, k, t'), Start(initial), budget, looked);
  }

  // ----- publication -----

  function Passed(t: Tables, k: string, r: Register): Traces {
    Lookup(ParametersOf(t, k), r)
  }

  ghost predicate ArgumentsPublished(arguments: set<(string, Register, Trace)>, ms: Methods, t: Tables) {
    forall a :: a in arguments && a.0 in ms ==> a.2 in Passed(t, a.0, a.1)
  }

  ghost predicate WritesPublished(writes: set<(string, Trace)>, t: Tables) {
    forall w :: w in writes ==> w.1 in Summaries(t.fields, w.0)
  }

  ghost predicate ReturnsPublished(returned: Traces, k: string, t: Tables) {
    returned <= Summaries(t.returned, k)
  }

  /** Everything a method was found to pass on is in the tables. */
  ghost predicate Published(e: Effects, ms: Methods, k: string, t: Tables) {
    ArgumentsPublished(e.arguments, ms, t) && WritesPublished(e.fieldWrites, t) && ReturnsPublished(e.returned, k, t)
  }

  ghost predicate TablesLeq(t: Tables, t': Tables) {
    && (forall k, r :: Passed(t, k, r) <= Passed(t', k, r))
    && (forall f :: Summaries(t.fields, f) <= Summaries(t'.fields, f))
    && (forall k :: Summaries(t.returned, k) <= Summaries(t'.returned, k))
  }

  lemma PublishedStays(e: Effects, ms: Methods, k: string, t: Tables, t': Tables)
    requires Published(e, ms, k, t) && TablesLeq(t, t')
    ensures Published(e, ms, k, t')
  {
  }

  lemma PublishedPart(e: Effects, e': Effects, ms: Methods, k: string, t: Tables)
    requires e'.Within(e) && Published(e, ms, k, t)
    ensures Published(e', ms, k, t)
  {
  }

  /** Analysing any method again would tell nothing new. */
  ghost predicate Closed(ms: Methods, t: Tables, budget: nat) {
    forall k :: Analysed(ms, k) ==> WellFormed(ms[k].program) && Published(FoundIn(ms, k, t, budget), ms, k, t)
  }

  // ----- closed under paths -----

  /** Whatever a path through any method carries to its end is in the tables already. */
  ghost predicate PathClosed(ms: Methods, t: Tables) {
    forall k, path :: Analysed(ms, k) && IsPath(ms[k].program, path) ==>
      Published(PathReport(ms[k].program, EnvOf(ms, k, t), InitialOf(ParametersOf(t, k), ms[k].seeds), path), ms, k, t)
  }

  ghost predicate AllUnguarded(ms: Methods) {
    forall k :: Analysed(ms, k) ==> Unguarded(ms[k].program)
  }

  /** No analysis was cut off by its step budget. */
  ghost predicate Complete(ms: Methods, t: Tables, budget: nat) {
    forall k :: Analysed(ms, k) && WellFormed(ms[k].program) ==> AnalysisOf(ms, k, t, budget).queue == []
  }

  /** Closed under analysis is closed under paths. */
  lemma ClosedIsPathClosed(ms: Methods, t: Tables, budget: nat)
    requires AllUnguarded(ms) && Closed(ms, t, budget) && Complete(ms, t, budget)
    ensures PathClosed(ms, t)
  {
    forall k, path | Analysed(ms, k) && IsPath(ms[k].program, path)
      ensures Published(PathReport(ms[k].program, EnvOf(ms, k, t), InitialOf(ParametersOf(t, k), ms[k].seeds), path),
                        ms, k, t)
    {
      var p, env, initial := ms[k].program, EnvOf(ms, k, t), InitialOf(ParametersOf(t, k), ms[k].seeds);
      AnalysisInvariant(p, env, initial, budget);
      PathIsReported(p, env, initial, AnalysisOf(ms, k, t, budget), path);
      PublishedPart(FoundIn(ms, k, t, budget), PathReport(p, env, initial, path), ms, k, t);
    }
  }

  // ----- larger tables carry more -----

  ghost predicate EnvLeq(env: Env, env': Env) {
    && env' == env.(fields := env'.fields, returnTaints := env'.returnTaints)
    && (forall f :: Summaries(env.fields, f) <= Summaries(env'.fields, f))
    && (forall m :: Summaries(env.returnTaints, m) <= Summaries(env'.returnTaints, m))
  }

  lemma DropBelow(a: Registers, b: Registers, ks: set<Key>)
    requires Below(a, b)
    ensures Below(a - ks, b - ks)
  {
  }

  lemma PutBelow(m: Registers, k: Key, t: Traces, u: Traces)
    requires t <= u
    ensures Below(Put(m, k, t), Put(m, k, u))
  {
  }

  /** The same state, with larger tables around it. */
  lemma StepInLargerEnv(st: Statement, s: State, env: Env, env': Env)
    requires EnvLeq(env, env')
    ensures Leq(Step(st, s, env), Step(st, s, env'))
  {
    var m := s.regs - PENDINGS;
    match st.op
    case StaticGet(dest, field, wide) =>
      var t, u := Summaries(env.fields, field), Summaries(env'.fields, field);
      var m1 := m - {ArrayOf(dest), BuilderOf(dest), ReturnedIn(dest)};
      PutBelow(m1, Reg(dest), t, u);
      DropBelow(Put(m1, Reg(dest), t), Put(m1, Reg(dest), u), Tracked(High(dest)));
    case Invoke(c) =>
      PutBelow(AfterSummary(m, c, st.line, env).regs, PendingReturn,
               Summaries(env.returnTaints, c.target), Summaries(env'.returnTaints, c.target));
    case _ =>
  }

  lemma StepGrows(st: Statement, s: State, s': State, env: Env, env': Env)
    requires !Guarded(st.op) && EnvLeq(env, env') && Leq(s, s')
    ensures Leq(Step(st, s, env), Step(st, s', env'))
  {
    StepMonotone(st, s, s', env);
    StepInLargerEnv(st, s', env, env');
    LeqTransitive(Step(st, s, env), Step(st, s', env), Step(st, s', env'));
  }

  lemma {:induction false} ArrivingGrows(p: Program, env: Env, env': Env, initial: Registers, initial': Registers,
                                         path: seq<nat>)
    requires Unguarded(p) && IsPath(p, path) && EnvLeq(env, env') && Below(initial, initial')
    ensures Leq(Arriving(p, env, initial, path), Arriving(p, env', initial', path))
    decreases |path|
  {
    if |path| > 1 {
      PathPrefix(p, path);
      var before := path[..|path| - 1];
      ArrivingGrows(p, env, env', initial, initial', before);
      StepGrows(p.code[Last(before)], Arriving(p, env, initial, before), Arriving(p, env', initial', before), env,
                env');
    }
  }

  lemma PathReportGrows(p: Program, env: Env, env': Env, initial: Registers, initial': Registers, path: seq<nat>)
    requires Unguarded(p) && IsPath(p, path) && EnvLeq(env, env') && Below(initial, initial')
    ensures PathReport(p, env, initial, path).Within(PathReport(p, env', initial', path))
  {
    ArrivingGrows(p, env, env', initial, initial', path);
    var st := p.code[Last(path)];
    var s, s' := Arriving(p, env, initial, path), Arriving(p, env', initial', path);
    StepGrows(st, s, s', env, env');
    var a, b := Step(st, s, env), Step(st, s', env');
    LeqIsJoin(a, b);
    ReportDistributes(st, a.regs, b.regs, env');
  }

  lemma {:induction false} PlusAllPublished(es: seq<Effects>, ms: Methods, k: string, t: Tables)
    requires forall n :: 0 <= n < |es| ==> Published(es[n], ms, k, t)
    ensures Published(PlusAll(es), ms, k, t)
    decreases |es|
  {
    if es != [] {
      PlusAllPublished(es[..|es| - 1], ms, k, t);
    }
  }

  /** No parameter is listed without a trace. */
  ghost predicate Solid(t: Tables) {
    forall k, r :: k in t.parameters && r in t.parameters[k] ==> t.parameters[k][r] != {}
  }

  lemma InitialGrows(ms: Methods, k: string, t: Tables, t': Tables)
    requires k in ms && Solid(t) && TablesLeq(t, t')
    ensures Below(InitialOf(ParametersOf(t, k), ms[k].seeds), InitialOf(ParametersOf(t', k), ms[k].seeds))
  {
    forall r | r in ParametersOf(t, k) ensures r in ParametersOf(t', k) {
      assert Passed(t, k, r) != {} && Passed(t, k, r) <= Passed(t', k, r);
    }
    forall r ensures Lookup(ParametersOf(t, k), r) <= Lookup(ParametersOf(t', k), r) {
      assert Passed(t, k, r) <= Passed(t', k, r);
    }
  }

  /**
   What an analysis against smaller tables finds is already in any larger path-closed tables: it is
   a union of path reports, cut short or not.
   */
  lemma FoundBelowPathClosed(ms: Methods, k: string, t: Tables, star: Tables, budget: nat)
    requires AllUnguarded(ms) && Analysed(ms, k) && WellFormed(ms[k].program)
    requires Solid(t) && TablesLeq(t, star) && PathClosed(ms, star)
    ensures Published(FoundIn(ms, k, t, budget), ms, k, star)
  {
    var p, env, initial := ms[k].program, EnvOf(ms, k, t), InitialOf(ParametersOf(t, k), ms[k].seeds);
    AnalysisExplained(p, env, initial, budget);
    var es :| AllReported(p, env, initial, es) && FoundIn(ms, k, t, budget) == PlusAll(es);
    forall n | 0 <= n < |es| ensures Published(es[n], ms, k, star) {
      ReportBelowPathClosed(ms, k, t, star, es[n]);
    }
    PlusAllPublished(es, ms, k, star);
  }

  lemma ReportBelowPathClosed(ms: Methods, k: string, t: Tables, star: Tables, e: Effects)
    requires AllUnguarded(ms) && Analysed(ms, k) && WellFormed(ms[k].program)
    requires Solid(t) && TablesLeq(t, star) && PathClosed(ms, star)
    requires Reported(ms[k].program, EnvOf(ms, k, t), InitialOf(ParametersOf(t, k), ms[k].seeds), e)
    ensures Published(e, ms, k, star)
  {
    var p := ms[k].program;
    var env, initial := EnvOf(ms, k, t), InitialOf(ParametersOf(t, k), ms[k].seeds);
    var env', initial' := EnvOf(ms, k, star), InitialOf(ParametersOf(star, k), ms[k].seeds);
    var path :| IsPath(p, path) && e == PathReport(p, env, initial, path);
    InitialGrows(ms, k, t, star);
    PathReportGrows(p, env, env', initial, initial', path);
    PublishedPart(PathReport(p, env', initial', path), e, ms, k, star);
  }

  /** Some path of method k, under the given tables, carries the flow's trace into the sink. */
  ghost predicate Grounded(ms: Methods, t: Tables, k: string, f: Flow) {
    Analysed(ms, k) && exists path ::
      IsPath(ms[k].program, path) &&
      f in PathReport(ms[k].program, EnvOf(ms, k, t), InitialOf(ParametersOf(t, k), ms[k].seeds), path).flows
  }

  lemma {:induction false} FlowOfSome(es: seq<Effects>, f: Flow) returns (n: nat)
    requires f in PlusAll(es).flows
    ensures n < |es| && f in es[n].flows
    decreases |es|
  {
    n := |es| - 1;
    if f !in es[n].flows {
      n := FlowOfSome(es[..n], f);
    }
  }

  /** A flow found against smaller tables is grounded in larger ones. */
  lemma FlowIsGrounded(ms: Methods, k: string, t: Tables, star: Tables, budget: nat, f: Flow)
    requires AllUnguarded(ms) && Analysed(ms, k) && WellFormed(ms[k].program)
    requires Solid(t) && TablesLeq(t, star) && f in FoundIn(ms, k, t, budget).flows
    ensures Grounded(ms, star, k, f)
  {
    var p, env, initial := ms[k].program, EnvOf(ms, k, t), InitialOf(ParametersOf(t, k), ms[k].seeds);
    AnalysisExplained(p, env, initial, budget);
    var es :| AllReported(p, env, initial, es) && FoundIn(ms, k, t, budget) == PlusAll(es);
    var n := FlowOfSome(es, f);
    assert Reported(p, env, initial, es[n]);
    var path :| IsPath(p, path) && es[n] == PathReport(p, env, initial, path);
    InitialGrows(ms, k, t, star);
    PathReportGrows(p, env, EnvOf(ms, k, star), initial, InitialOf(ParametersOf(star, k), ms[k].seeds), path);
  }

  /** What is grounded stays grounded when the tables grow. */
  lemma GroundedGrows(ms: Methods, t: Tables, t': Tables, k: string, f: Flow)
    requires AllUnguarded(ms) && Solid(t) && TablesLeq(t, t') && Grounded(ms, t, k, f)
    ensures Grounded(ms, t', k, f)
  {
    var p, env, initial := ms[k].program, EnvOf(ms, k, t), InitialOf(ParametersOf(t, k), ms[k].seeds);
    var path :| IsPath(p, path) && f in PathReport(p, env, initial, path).flows;
    InitialGrows(ms, k, t, t');
    PathReportGrows(p, env, EnvOf(ms, k, t'), initial, InitialOf(ParametersOf(t', k), ms[k].seeds), path);
  }

  /** A complete analysis finds whatever is grounded. */
  lemma GroundedIsFound(ms: Methods, t: Tables, k: string, f: Flow, budget: nat)
    requires AllUnguarded(ms) && Complete(ms, t, budget) && Grounded(ms, t, k, f)
    ensures WellFormed(ms[k].program) && f in FoundIn(ms, k, t, budget).flows
  {
    var p, env, initial := ms[k].program, EnvOf(ms, k, t), InitialOf(ParametersOf(t, k), ms[k].seeds);
    var path :| IsPath(p, path) && f in PathReport(p, env, initial, path).flows;
    AnalysisInvariant(p, env, initial, budget);
    PathIsReported(p, env, initial, AnalysisOf(ms, k, t, budget), path);
  }

  // ----- the least tables closed under paths -----

  ghost predicate BelowPathClosed(ms: Methods, t: Tables) {
    forall star :: PathClosed(ms, star) ==> TablesLeq(t, star)
  }

  ghost predicate LeastPathClosed(ms: Methods, t: Tables) {
    PathClosed(ms, t) && BelowPathClosed(ms, t)
  }

  /** There is only one least solution, and so the flows do not depend on how it was reached. */
  lemma LeastIsUnique(ms: Methods, t: Tables, t': Tables, k: string, f: Flow)
    requires LeastPathClosed(ms, t) && LeastPathClosed(ms, t')
    ensures TablesLeq(t, t') && TablesLeq(t', t)
    ensures AllUnguarded(ms) && Solid(t) && Solid(t') ==> (Grounded(ms, t, k, f) <==> Grounded(ms, t', k, f))
  {
    if AllUnguarded(ms) && Solid(t) && Solid(t') {
      if Grounded(ms, t, k, f) {
        GroundedGrows(ms, t, t', k, f);
      }
      if Grounded(ms, t', k, f) {
        GroundedGrows(ms, t', t, k, f);
      }
    }
  }

  // ----- growing the tables one fact at a time -----

  datatype TaintFact =
    | ParameterFact(method_: string, register: Register, trace: Trace)
    | FieldFact(field: string, trace: Trace)
    | ReturnedFact(method_: string, trace: Trace)

  predicate Has(t: Tables, f: TaintFact) {
    match f
    case ParameterFact(k, r, x) => x in Passed(t, k, r)
    case FieldFact(g, x) => x in Summaries(t.fields, g)
    case ReturnedFact(k, x) => x in Summaries(t.returned, k)
  }

  function AddFact(t: Tables, f: TaintFact): Tables {
    match f
    case ParameterFact(k, r, x) =>
      t.(parameters := t.parameters[k := ParametersOf(t, k)[r := Passed(t, k, r) + {x}]])
    case FieldFact(g, x) => t.(fields := t.fields[g := Summaries(t.fields, g) + {x}])
    case ReturnedFact(k, x) => t.(returned := t.returned[k := Summaries(t.returned, k) + {x}])
  }

  lemma AddedFactHas(t: Tables, f: TaintFact, g: TaintFact)
    ensures Has(AddFact(t, f), g) <==> Has(t, g) || g == f
  {
  }

  ghost function Facts(t: Tables): set<TaintFact> {
    (set k, r, x | k in t.parameters && r in t.parameters[k] && x in t.parameters[k][r] :: ParameterFact(k, r, x))
    + (set g, x | g in t.fields && x in t.fields[g] :: FieldFact(g, x))
    + (set k, x | k in t.returned && x in t.returned[k] :: ReturnedFact(k, x))
  }

  lemma FactsAreWhatItHas(t: Tables, f: TaintFact)
    ensures f in Facts(t) <==> Has(t, f)
  {
  }

  lemma OneMoreFact(t: Tables, f: TaintFact)
    requires !Has(t, f)
    ensures Facts(AddFact(t, f)) == Facts(t) + {f}
    ensures |Facts(AddFact(t, f))| == |Facts(t)| + 1
  {
    forall g ensures g in Facts(AddFact(t, f)) <==> g in Facts(t) || g == f {
      MembershipAfter(t, f, g);
    }
    FactsAreWhatItHas(t, f);
    SameMembers(Facts(AddFact(t, f)), Facts(t), f);
  }

  lemma MembershipAfter(t: Tables, f: TaintFact, g: TaintFact)
    ensures g in Facts(AddFact(t, f)) <==> g in Facts(t) || g == f
  {
    FactsAreWhatItHas(AddFact(t, f), g);
    FactsAreWhatItHas(t, g);
    AddedFactHas(t, f, g);
  }

  lemma SameMembers<T>(a: set<T>, b: set<T>, x: T)
    requires forall y :: y in a <==> y in b || y == x
    requires x !in b
    ensures a == b + {x} && |a| == |b| + 1
  {
    assert a == b + {x};
  }

  lemma AddFactGrows(t: Tables, f: TaintFact)
    ensures TablesLeq(t, AddFact(t, f))
    ensures Solid(t) ==> Solid(AddFact(t, f))
  {
    forall k, r ensures Passed(t, k, r) <= Passed(AddFact(t, f), k, r) {
    }
  }

  lemma TablesLeqTransitive(t: Tables, t': Tables, t'': Tables)
    requires TablesLeq(t, t') && TablesLeq(t', t'')
    ensures TablesLeq(t, t'')
  {
  }

  lemma HasMoreIsLeq(t: Tables, t': Tables)
    requires forall f :: Has(t, f) ==> Has(t', f)
    ensures TablesLeq(t, t')
  {
    forall k, r ensures Passed(t, k, r) <= Passed(t', k, r) {
      forall x | x in Passed(t, k, r) ensures x in Passed(t', k, r) {
        assert Has(t, ParameterFact(k, r, x));
      }
    }
    forall g ensures Summaries(t.fields, g) <= Summaries(t'.fields, g) {
      forall x | x in Summaries(t.fields, g) ensures x in Summaries(t'.fields, g) {
        assert Has(t, FieldFact(g, x));
      }
    }
    forall k ensures Summaries(t.returned, k) <= Summaries(t'.returned, k) {
      forall x | x in Summaries(t.returned, k) ensures x in Summaries(t'.returned, k) {
        assert Has(t, ReturnedFact(k, x));
      }
    }
  }

  lemma AddFactBelow(t: Tables, f: TaintFact, star: Tables)
    requires TablesLeq(t, star) && Has(star, f)
    ensures TablesLeq(AddFact(t, f), star)
  {
    forall k, r ensures Passed(AddFact(t, f), k, r) <= Passed(star, k, r) {
    }
  }
}
