/**
 Taint as chains of definitions and uses. What the analysis of a method reports, and what a
 propagation over a package records, is what chains along the paths of the methods lead to.
 */
module TaintChains {
  import opened Wrappers
  import opened Descriptors
  import opened RegisterState
  import opened Transfer
  import opened TransferFrame
  import opened Distributivity
  import opened DefUse
  import opened RegisterFlow
  import opened SummaryTables

  /** The instructions along a path. */
  function Along(p: Program, path: seq<nat>): seq<Statement>
    requires forall i :: 0 <= i < |path| ==> path[i] < |p.code|
  {
    seq(|path|, i requires 0 <= i < |path| => p.code[path[i]])
  }

  /** A path carries to its end what its instructions make of the start state, one after the other. */
  lemma {:induction false} PathIsRun(p: Program, env: Env, initial: Registers, path: seq<nat>)
    requires IsPath(p, path)
    ensures Step(p.code[Last(path)], Arriving(p, env, initial, path), env)
         == Through(Along(p, path), env, State(initial, {}))
    decreases |path|
  {
    var code, s := Along(p, path), State(initial, {});
    var front := path[..|path| - 1];
    assert code[..|code| - 1] == Along(p, front);
    if |path| > 1 {
      PathPrefix(p, path);
      PathIsRun(p, env, initial, front);
    } else {
      assert Through(Along(p, front), env, s) == s;
    }
  }

  // ----- what is reported -----

  /** The instruction makes the trace of the link, which is in a register, the fact. */
  predicate Tells(st: Statement, env: Env, b: Link, f: Fact) {
    && b.slot.In? && b.slot.key.Reg?
    && match f
       case FlowFact(flow) =>
         && flow.register == b.slot.key.r && flow.trace == b.trace && flow.line == st.line
         && st.op.Invoke? && st.op.call.sink == Some(flow.sink) && flow.register in st.op.call.args
       case ArgumentFact(argument) =>
         && argument.2 == b.trace && st.op.Invoke? && argument.0 == st.op.call.target && argument.0 in env.methods
         && (argument.1, b.slot.key.r)
            in ArgumentRegisters(st.op.call.signature, env.methods[argument.0], st.op.call.args)
       case WriteFact(write) => write.1 == b.trace && st.op == StaticPut(b.slot.key.r, write.0)
       case ReturnFact(trace) => trace == b.trace && st.op == ReturnValue(b.slot.key.r)
       case _ => false
  }

  /** The instruction is itself the fact: it reads the field, or calls the method of the package. */
  predicate Mentions(st: Statement, env: Env, f: Fact) {
    match f
    case ReadFact(field) => st.op.StaticGet? && st.op.field == field
    case CallFact(callee) => st.op.Invoke? && st.op.call.target == callee && callee in env.methods
    case _ => false
  }

  lemma ArgumentTells(st: Statement, after: State, env: Env, x: (string, Register, Trace))
    ensures One(ArgumentFact(x)).Within(Report(st, after.regs, env)) <==>
            exists b :: Tells(st, env, b, ArgumentFact(x)) && b.trace in Contents(after, b.slot)
  {
    assert x in One(ArgumentFact(x)).arguments && x == (x.0, x.1, x.2);
    var e := Report(st, after.regs, env);
    if x in e.arguments {
      var c := st.op.call;
      var p :| p in ArgumentRegisters(c.signature, env.methods[c.target], c.args) && p.0 == x.1
               && x.2 in Get(after.regs, Reg(p.1));
      assert p == (x.1, p.1);
      assert Tells(st, env, Link(In(Reg(p.1)), x.2), ArgumentFact(x));
    }
    if b :| Tells(st, env, b, ArgumentFact(x)) && b.trace in Contents(after, b.slot) {
      var p := (x.1, b.slot.key.r);
      assert p in ArgumentRegisters(st.op.call.signature, env.methods[x.0], st.op.call.args);
    }
  }

  lemma FlowTells(st: Statement, after: State, env: Env, x: Flow)
    ensures One(FlowFact(x)).Within(Report(st, after.regs, env)) <==>
            exists b :: Tells(st, env, b, FlowFact(x)) && b.trace in Contents(after, b.slot)
  {
    assert x in One(FlowFact(x)).flows;
    if x in Report(st, after.regs, env).flows {
      assert Tells(st, env, Link(In(Reg(x.register)), x.trace), FlowFact(x));
    }
  }

  lemma ReportTells(st: Statement, after: State, env: Env, f: Fact)
    ensures One(f).Within(Report(st, after.regs, env)) <==>
            Mentions(st, env, f) || exists b :: Tells(st, env, b, f) && b.trace in Contents(after, b.slot)
  {
    match f
    case FlowFact(x) => FlowTells(st, after, env, x);
    case ArgumentFact(x) => ArgumentTells(st, after, env, x);
    case WriteFact(x) =>
      assert x in One(f).fieldWrites && x == (x.0, x.1);
      if st.op.StaticPut? {
        var b := Link(In(Reg(st.op.value)), x.1);
        assert x.0 == st.op.field ==> Tells(st, env, b, f);
      }
    case ReadFact(x) => assert x in One(f).fieldReads;
    case ReturnFact(x) =>
      assert x in One(f).returned;
      if st.op.ReturnValue? {
        assert Tells(st, env, Link(In(Reg(st.op.value)), x), f);
      }
    case CallFact(x) => assert x in One(f).called;
  }

  /** At its end the path gives rise to the fact: its last instruction mentions it, or a chain leads to the trace. */
  ghost predicate PathGives(p: Program, env: Env, entry: Link -> bool, path: seq<nat>, f: Fact) {
    && IsPath(p, path)
    && (Mentions(p.code[Last(path)], env, f)
        || exists b :: Tells(p.code[Last(path)], env, b, f) && Leads(Along(p, path), env, entry, b))
  }

  /** The entry gives what the method starts with. */
  ghost predicate Enters(entry: Link -> bool, initial: Registers) {
    forall link :: entry(link) <==> link.trace in Contents(State(initial, {}), link.slot)
  }

  lemma PathGivesExactly(p: Program, env: Env, initial: Registers, entry: Link -> bool, path: seq<nat>, f: Fact)
    requires Unguarded(p) && Enters(entry, initial) && IsPath(p, path)
    ensures One(f).Within(PathReport(p, env, initial, path)) <==> PathGives(p, env, entry, path, f)
  {
    var code, s := Along(p, path), State(initial, {});
    var st := p.code[Last(path)];
    var after := Step(st, Arriving(p, env, initial, path), env);
    PathIsRun(p, env, initial, path);
    ReportTells(st, after, env, f);
    forall i | 0 <= i < |code| ensures !Guarded(code[i].op) {
      assert code[i] == p.code[path[i]];
    }
    forall b: Link ensures b.trace in Contents(after, b.slot) <==> Leads(code, env, entry, b) {
      CarriesExactlyLeads(code, env, s, entry, b);
    }
  }

  /**
   Without guarded forms, and when the loop ended by itself, a fact is reported exactly when a chain of
   definitions and uses along some path leads to the instruction that makes it one.
   */
  lemma ReportsExactlyChains(p: Program, env: Env, initial: Registers, entry: Link -> bool, budget: nat, f: Fact)
    requires WellFormed(p) && Unguarded(p) && Enters(entry, initial)
    requires Analysis(p, env, initial, budget).queue == []
    ensures One(f).Within(Analysis(p, env, initial, budget).found) <==>
            exists path :: PathGives(p, env, entry, path, f)
  {
    ReportsExactlyPaths(p, env, initial, budget, f);
    forall path | IsPath(p, path)
      ensures One(f).Within(PathReport(p, env, initial, path)) <==> PathGives(p, env, entry, path, f)
    {
      PathGivesExactly(p, env, initial, entry, path, f);
    }
  }

  // ----- with guarded forms as well -----

  /** The same, by a chain that no guarded form can interrupt. */
  ghost predicate PathGivesFirmly(p: Program, env: Env, entry: Link -> bool, path: seq<nat>, f: Fact) {
    && IsPath(p, path)
    && exists n: nat, links ::
         && Chain(Along(p, path), env, entry, n, links) && Firm(Along(p, path), n, links)
         && Tells(p.code[Last(path)], env, links[|links| - 1], f)
  }

  ghost predicate HeldBefore(c: Config, i: nat, link: Link) {
    i in c.states && link.trace in Contents(c.states[i], link.slot)
  }

  ghost predicate HeldAfter(p: Program, env: Env, c: Config, i: nat, link: Link) {
    && i in c.states && i < |p.code|
    && link.trace in Contents(Step(p.code[i], c.states[i], env), link.slot)
  }

  lemma HeldFromStart(p: Program, env: Env, initial: Registers, entry: Link -> bool, c: Config, link: Link)
    requires Finished(p, env, initial, c) && Enters(entry, initial) && entry(link)
    ensures HeldBefore(c, 0, link)
  {
    assert link.trace in Contents(State(initial, {}), link.slot);
  }

  lemma HeldNext(p: Program, env: Env, initial: Registers, c: Config, i: nat, j: nat, link: Link)
    requires Finished(p, env, initial, c) && HeldAfter(p, env, c, i, link) && j in p.succs[i]
    ensures HeldBefore(c, j, link)
  {
    assert Settled(p, env, c, i);
    assert Delivered(c, j, Step(p.code[i], c.states[i], env));
  }

  lemma HeldIntroduced(p: Program, env: Env, c: Config, i: nat, link: Link)
    requires i in c.states && i < |p.code| && Introduces(p.code[i], env, link.slot, link.trace)
    ensures HeldAfter(p, env, c, i, link)
  {
    StepCarriesExactly(p.code[i], c.states[i], env, link);
  }

  lemma HeldThrough(p: Program, env: Env, c: Config, i: nat, a: Link, b: Link)
    requires HeldBefore(c, i, a) && i < |p.code|
    requires Edge(p.code[i], env, a, b) && !Hideable(p.code[i].op, a.slot, b.slot)
    ensures HeldAfter(p, env, c, i, b)
  {
    assert Comes(p.code[i], c.states[i], env, a, b);
    StepCarriesExactly(p.code[i], c.states[i], env, b);
  }

  /** A chain along a path that no guarded form can interrupt. */
  ghost function FirmAlong(p: Program, env: Env, entry: Link -> bool): (seq<nat>, nat, seq<Link>) -> bool {
    (path: seq<nat>, n: nat, links: seq<Link>) =>
      IsPath(p, path) && Chain(Along(p, path), env, entry, n, links) && Firm(Along(p, path), n, links)
  }

  lemma {:induction false} FirmChainHolds(p: Program, env: Env, initial: Registers, entry: Link -> bool, c: Config,
                                          path: seq<nat>, n: nat, links: seq<Link>)
    requires Finished(p, env, initial, c) && Enters(entry, initial) && FirmAlong(p, env, entry)(path, n, links)
    ensures path != [] && links != [] && HeldAfter(p, env, c, Last(path), links[|links| - 1])
    decreases |path|
  {
    if n == |path| {
      FirmIntroduced(p, env, initial, entry, c, path, n, links);
    } else if |path| == 1 {
      FirmEnters(p, env, initial, entry, c, path, n, links);
    } else {
      var front, links' := FirmFront(p, env, entry, path, n, links);
      FirmChainHolds(p, env, initial, entry, c, front, n, links');
      FirmOnward(p, env, initial, entry, c, path, front, n, links);
    }
  }

  lemma FirmOnward(p: Program, env: Env, initial: Registers, entry: Link -> bool, c: Config, path: seq<nat>,
                   front: seq<nat>, n: nat, links: seq<Link>)
    requires Finished(p, env, initial, c) && FirmAlong(p, env, entry)(path, n, links) && n < |path|
    requires front != [] && |links| >= 2 && HeldAfter(p, env, c, Last(front), links[|links| - 2])
    requires Last(front) < |p.succs| && Last(path) in p.succs[Last(front)]
    ensures HeldAfter(p, env, c, Last(path), links[|links| - 1])
  {
    FirmEdge(p, env, entry, path, n, links);
    HeldNext(p, env, initial, c, Last(front), Last(path), links[|links| - 2]);
    HeldThrough(p, env, c, Last(path), links[|links| - 2], links[|links| - 1]);
  }

  lemma FirmEnters(p: Program, env: Env, initial: Registers, entry: Link -> bool, c: Config, path: seq<nat>, n: nat,
                   links: seq<Link>)
    requires Finished(p, env, initial, c) && Enters(entry, initial)
    requires FirmAlong(p, env, entry)(path, n, links) && n < |path| == 1
    ensures |links| == 2 && HeldAfter(p, env, c, Last(path), links[1])
  {
    FirmEdge(p, env, entry, path, n, links);
    FirmStart(p, env, entry, path, n, links);
    HeldFromStart(p, env, initial, entry, c, links[0]);
    HeldThrough(p, env, c, Last(path), links[0], links[1]);
  }

  lemma FirmIntroduced(p: Program, env: Env, initial: Registers, entry: Link -> bool, c: Config, path: seq<nat>,
                       n: nat, links: seq<Link>)
    requires Finished(p, env, initial, c) && FirmAlong(p, env, entry)(path, n, links) && n == |path|
    ensures path != [] && |links| == 1 && HeldAfter(p, env, c, Last(path), links[0])
  {
    PathIsVisited(p, env, initial, c, path);
    HeldIntroduced(p, env, c, Last(path), links[0]);
  }

  lemma FirmStart(p: Program, env: Env, entry: Link -> bool, path: seq<nat>, n: nat, links: seq<Link>)
    requires FirmAlong(p, env, entry)(path, n, links) && n < |path| == 1
    ensures path == [0] && |links| == 2 && entry(links[0])
  {
  }

  lemma FirmEdge(p: Program, env: Env, entry: Link -> bool, path: seq<nat>, n: nat, links: seq<Link>)
    requires FirmAlong(p, env, entry)(path, n, links) && n < |path|
    ensures |links| >= 2 && Last(path) < |p.code|
    ensures Edge(p.code[Last(path)], env, links[|links| - 2], links[|links| - 1])
    ensures !Hideable(p.code[Last(path)].op, links[|links| - 2].slot, links[|links| - 1].slot)
  {
    ChainWithoutLast(Along(p, path), env, entry, n, links);
    FirmWithoutLast(Along(p, path), n, links);
  }

  lemma FirmFront(p: Program, env: Env, entry: Link -> bool, path: seq<nat>, n: nat, links: seq<Link>)
    returns (front: seq<nat>, links': seq<Link>)
    requires FirmAlong(p, env, entry)(path, n, links) && n < |path| && |path| > 1
    ensures front == path[..|path| - 1] && |links| >= 2 && links' == links[..|links| - 1]
    ensures FirmAlong(p, env, entry)(front, n, links') && Last(front) < |p.succs| && Last(path) in p.succs[Last(front)]
  {
    var code := Along(p, path);
    front, links' := path[..|path| - 1], links[..|links| - 1];
    ChainWithoutLast(code, env, entry, n, links);
    FirmWithoutLast(code, n, links);
    AlongFront(p, path, front, code, code[..|code| - 1]);
  }

  lemma AlongFront(p: Program, path: seq<nat>, front: seq<nat>, code: seq<Statement>, code': seq<Statement>)
    requires IsPath(p, path) && |path| > 1 && front == path[..|path| - 1]
    requires code == Along(p, path) && code' == code[..|code| - 1]
    ensures IsPath(p, front) && code' == Along(p, front) && Last(path) in p.succs[Last(front)]
  {
    PathPrefix(p, path);
  }

  /**
   Whatever forms a method contains: what a chain that no guarded form can interrupt leads to is reported
   once the loop has ended by itself.
   */
  lemma FirmChainIsReported(p: Program, env: Env, initial: Registers, entry: Link -> bool, budget: nat,
                            path: seq<nat>, f: Fact)
    requires WellFormed(p) && Enters(entry, initial) && Analysis(p, env, initial, budget).queue == []
    requires PathGivesFirmly(p, env, entry, path, f)
    ensures One(f).Within(Analysis(p, env, initial, budget).found)
  {
    var c := Analysis(p, env, initial, budget);
    AnalysisInvariant(p, env, initial, budget);
    var n: nat, links :| && Chain(Along(p, path), env, entry, n, links) && Firm(Along(p, path), n, links)
                         && Tells(p.code[Last(path)], env, links[|links| - 1], f);
    FirmChainHolds(p, env, initial, entry, c, path, n, links);
    HeldIsReported(p, env, initial, c, Last(path), links[|links| - 1], f);
  }

  lemma HeldIsReported(p: Program, env: Env, initial: Registers, c: Config, i: nat, b: Link, f: Fact)
    requires Finished(p, env, initial, c) && HeldAfter(p, env, c, i, b) && Tells(p.code[i], env, b, f)
    ensures One(f).Within(c.found)
  {
    ReportTells(p.code[i], Step(p.code[i], c.states[i], env), env, f);
    assert Settled(p, env, c, i);
  }

  // ----- a package -----

  /** What a method starts with: its seeds, and what the table says its callers pass. */
  ghost function Entry(ms: Methods, k: string, t: Tables): Link -> bool
    requires k in ms
  {
    (link: Link) =>
      && link.slot.In? && link.slot.key.Reg?
      && var r := link.slot.key.r;
         (r in ms[k].seeds && link.trace in ms[k].seeds[r])
         || (k in t.parameters && r in t.parameters[k] && link.trace in t.parameters[k][r])
  }

  /** At entry a register carries its seeds and what callers pass, and nothing else is carried. */
  lemma EntersExactly(ms: Methods, k: string, t: Tables, link: Link)
    requires k in ms
    ensures link.trace in Contents(State(InitialOf(ParametersOf(t, k), ms[k].seeds), {}), link.slot)
       <==> Entry(ms, k, t)(link)
  {
  }

  /** Method k, where the tables hold t, gives rise to the fact. */
  ghost predicate Gives(ms: Methods, t: Tables, k: string, f: Fact) {
    && k in ms && ms[k].lines <= 20000
    && var env := Env(map j | j in ms :: ms[j].isStatic, t.fields, t.returned, k, ms[k].file);
       exists path :: PathGives(ms[k].program, env, Entry(ms, k, t), path, f)
  }

  lemma ReportGives(ms: Methods, t: Tables, k: string, path: seq<nat>, f: Fact)
    requires AllUnguarded(ms) && Analysed(ms, k) && IsPath(ms[k].program, path)
    ensures One(f).Within(PathReport(ms[k].program, EnvOf(ms, k, t), InitialOf(ParametersOf(t, k), ms[k].seeds), path))
       <==> PathGives(ms[k].program, EnvOf(ms, k, t), Entry(ms, k, t), path, f)
  {
    var initial, entry := InitialOf(ParametersOf(t, k), ms[k].seeds), Entry(ms, k, t);
    forall link ensures entry(link) <==> link.trace in Contents(State(initial, {}), link.slot) {
      EntersExactly(ms, k, t, link);
    }
    PathGivesExactly(ms[k].program, EnvOf(ms, k, t), initial, entry, path, f);
  }

  /** The tables hold what the fact passes on. */
  predicate Kept(ms: Methods, t: Tables, k: string, f: Fact) {
    match f
    case ArgumentFact(argument) =>
      argument.0 in ms ==>
        argument.0 in t.parameters && argument.1 in t.parameters[argument.0]
        && argument.2 in t.parameters[argument.0][argument.1]
    case WriteFact(write) => write.0 in t.fields && write.1 in t.fields[write.0]
    case ReturnFact(trace) => k in t.returned && trace in t.returned[k]
    case _ => true
  }

  /** The tables hold everything chains through the methods lead to. */
  ghost predicate ChainClosed(ms: Methods, t: Tables) {
    forall k, f :: Gives(ms, t, k, f) ==> Kept(ms, t, k, f)
  }

  lemma PublishedKeeps(e: Effects, ms: Methods, k: string, t: Tables)
    ensures Published(e, ms, k, t) <==> forall f :: One(f).Within(e) ==> Kept(ms, t, k, f)
  {
    if Published(e, ms, k, t) {
      forall f | One(f).Within(e) ensures Kept(ms, t, k, f) {
        OneIsAmong(e, f);
      }
    }
    if forall f :: One(f).Within(e) ==> Kept(ms, t, k, f) {
      forall a | a in e.arguments && a.0 in ms ensures a.2 in Passed(t, a.0, a.1) {
        assert Kept(ms, t, k, ArgumentFact(a));
      }
      forall w | w in e.fieldWrites ensures w.1 in Summaries(t.fields, w.0) {
        assert Kept(ms, t, k, WriteFact(w));
      }
      forall x | x in e.returned ensures x in Summaries(t.returned, k) {
        assert Kept(ms, t, k, ReturnFact(x));
      }
    }
  }

  lemma OneIsAmong(e: Effects, f: Fact)
    requires One(f).Within(e)
    ensures f.ArgumentFact? ==> f.argument in e.arguments
    ensures f.WriteFact? ==> f.write in e.fieldWrites
    ensures f.ReturnFact? ==> f.trace in e.returned
    ensures f.FlowFact? ==> f.flow in e.flows
  {
    match f
    case FlowFact(x) => assert x in One(f).flows;
    case ArgumentFact(x) => assert x in One(f).arguments;
    case WriteFact(x) => assert x in One(f).fieldWrites;
    case ReturnFact(x) => assert x in One(f).returned;
    case _ =>
  }

  lemma ClosedUnderChains(ms: Methods, t: Tables)
    requires AllUnguarded(ms)
    ensures PathClosed(ms, t) <==> ChainClosed(ms, t)
  {
    forall k, path | Analysed(ms, k) && IsPath(ms[k].program, path)
      ensures Published(PathReport(ms[k].program, EnvOf(ms, k, t), InitialOf(ParametersOf(t, k), ms[k].seeds), path),
                        ms, k, t)
        <==> forall f ::
               PathGives(ms[k].program, EnvOf(ms, k, t), Entry(ms, k, t), path, f) ==> Kept(ms, t, k, f)
    {
      var e := PathReport(ms[k].program, EnvOf(ms, k, t), InitialOf(ParametersOf(t, k), ms[k].seeds), path);
      PublishedKeeps(e, ms, k, t);
      forall f ensures One(f).Within(e) <==> PathGives(ms[k].program, EnvOf(ms, k, t), Entry(ms, k, t), path, f) {
        ReportGives(ms, t, k, path, f);
      }
    }
    if PathClosed(ms, t) {
      forall k, f | Gives(ms, t, k, f) ensures Kept(ms, t, k, f) {
        var path :| PathGives(ms[k].program, EnvOf(ms, k, t), Entry(ms, k, t), path, f);
      }
    }
    if ChainClosed(ms, t) {
      forall k, path, f | Analysed(ms, k) && PathGives(ms[k].program, EnvOf(ms, k, t), Entry(ms, k, t), path, f)
        ensures Kept(ms, t, k, f)
      {
        assert Gives(ms, t, k, f);
      }
    }
  }

  lemma GroundedByChains(ms: Methods, t: Tables, k: string, f: Flow)
    requires AllUnguarded(ms)
    ensures Grounded(ms, t, k, f) <==> Gives(ms, t, k, FlowFact(f))
  {
    if Analysed(ms, k) {
      var p, env := ms[k].program, EnvOf(ms, k, t);
      var initial := InitialOf(ParametersOf(t, k), ms[k].seeds);
      forall path | IsPath(p, path)
        ensures f in PathReport(p, env, initial, path).flows
           <==> PathGives(p, env, Entry(ms, k, t), path, FlowFact(f))
      {
        ReportGives(ms, t, k, path, FlowFact(f));
        assert f in One(FlowFact(f)).flows;
      }
    }
  }

  /** Method k gives rise to the fact by a chain that no guarded form can interrupt. */
  ghost predicate GivesFirmly(ms: Methods, t: Tables, k: string, f: Fact) {
    && k in ms && ms[k].lines <= 20000
    && var env := Env(map j | j in ms :: ms[j].isStatic, t.fields, t.returned, k, ms[k].file);
       exists path :: PathGivesFirmly(ms[k].program, env, Entry(ms, k, t), path, f)
  }

  lemma FirmlyFound(ms: Methods, t: Tables, k: string, f: Fact, budget: nat)
    requires GivesFirmly(ms, t, k, f) && Complete(ms, t, budget)
    ensures WellFormed(ms[k].program) && One(f).Within(FoundIn(ms, k, t, budget))
  {
    var env, initial, entry := EnvOf(ms, k, t), InitialOf(ParametersOf(t, k), ms[k].seeds), Entry(ms, k, t);
    var path :| PathGivesFirmly(ms[k].program, env, entry, path, f);
    forall link ensures entry(link) <==> link.trace in Contents(State(initial, {}), link.slot) {
      EntersExactly(ms, k, t, link);
    }
    FirmChainIsReported(ms[k].program, env, initial, entry, budget, path, f);
  }

  /** Whatever forms the package contains, closed tables hold what firm chains lead to. */
  lemma ClosedUnderFirmChains(ms: Methods, t: Tables, budget: nat, k: string, f: Fact)
    requires Closed(ms, t, budget) && Complete(ms, t, budget) && GivesFirmly(ms, t, k, f)
    ensures Kept(ms, t, k, f)
  {
    FirmlyFound(ms, t, k, f, budget);
    PublishedKeeps(FoundIn(ms, k, t, budget), ms, k, t);
  }

  // ----- a parameter that reaches a sink -----

  /** A stretch of instructions that never touches a register leaves what it carries. */
  lemma LeftAlone(op: Op, r: Register)
    requires Reg(r) !in Touched(op)
    ensures Leaves(op, In(Reg(r))) && !Hideable(op, In(Reg(r)), In(Reg(r)))
  {
  }

  /**
   A trace that a method is seeded with, or that a caller passes, in a register that no instruction of a
   path touches, and that the sink call at its end takes as an argument, is a flow of the method.
   */
  lemma EnteringReachesSink(ms: Methods, t: Tables, k: string, path: seq<nat>, r: Register, trace: Trace)
    requires k in ms && ms[k].lines <= 20000 && IsPath(ms[k].program, path)
    requires forall i :: 0 <= i < |path| ==> Reg(r) !in Touched(ms[k].program.code[path[i]].op)
    requires (r in ms[k].seeds && trace in ms[k].seeds[r])
             || (k in t.parameters && r in t.parameters[k] && trace in t.parameters[k][r])
    requires var st := ms[k].program.code[Last(path)];
             st.op.Invoke? && st.op.call.sink.Some? && r in st.op.call.args
    ensures var st := ms[k].program.code[Last(path)];
            GivesFirmly(ms, t, k, FlowFact(Flow(st.line, st.op.call.sink.value, r, trace)))
  {
    var p := ms[k].program;
    var st, code := p.code[Last(path)], Along(p, path);
    var env := Env(map j | j in ms :: ms[j].isStatic, t.fields, t.returned, k, ms[k].file);
    var link := Link(In(Reg(r)), trace);
    var links := seq(|path| + 1, _ => link);
    forall i | 0 <= i < |code| ensures Leaves(code[i].op, link.slot) && !Hideable(code[i].op, link.slot, link.slot) {
      assert code[i] == p.code[path[i]];
      LeftAlone(code[i].op, r);
    }
    assert Chain(code, env, Entry(ms, k, t), 0, links) && Firm(code, 0, links);
    assert PathGivesFirmly(p, env, Entry(ms, k, t), path,
                           FlowFact(Flow(st.line, st.op.call.sink.value, r, trace)));
  }
}
