/**
 The inner worklist ends by itself. Every state stays inside a finite universe of keys and traces,
 every re-queueing adds something to it, and the queue shrinks otherwise; the step budget is not
 needed, and a budget that suffices changes nothing when it is raised.
 */
module Termination {
  import opened Wrappers
  import opened Collections
  import opened Descriptors
  import opened RegisterState
  import opened Transfer
  import opened RegisterFlow

  /** A finite stock of keys and traces. */
  datatype Universe = Universe(keys: set<Key>, traces: Traces)

  ghost predicate RegistersIn(m: Registers, u: Universe) {
    m.Keys <= u.keys && forall k :: k in m ==> m[k] <= u.traces
  }

  ghost predicate StateIn(s: State, u: Universe) {
    RegistersIn(s.regs, u) && s.pending <= u.traces
  }

  // ----- a statement that stays inside -----

  /** The keys an instruction may write. */
  function WrittenKeys(op: Op): set<Key> {
    match op
    case StaticGet(dest, _, _) => {Reg(dest)}
    case MoveResult(dest, _) => Tracked(dest)
    case Move(dest, _, _) => Tracked(dest)
    case ArrayGet(dest, _, _) => {Reg(dest)}
    case Write(dest, _, _) => {Reg(dest)}
    case ArrayPut(_, base) => {ArrayOf(base)}
    case FilledNewArray(_) => PENDINGS
    case Invoke(c) =>
      PENDINGS + (if c.args != [] then {Reg(c.args[0]), BuilderOf(c.args[0])} else {})
      + (if |c.args| > 1 then {ArrayOf(c.args[1])} else {})
    case _ => {}
  }

  /** The traces an instruction may introduce on its own. */
  ghost predicate IntroducesIn(st: Statement, env: Env, u: Universe) {
    match st.op
    case StaticGet(_, field, _) => Summaries(env.fields, field) <= u.traces
    case Invoke(c) =>
      && Summaries(env.returnTaints, c.target) <= u.traces
      && Trace(EXTERNAL, st.line, env.methodKey, env.file) in u.traces
      && (c.summary.Source? ==> Trace(c.summary.kind, st.line, env.methodKey, env.file) in u.traces)
      && (c.summary.DerivedAs? ==> Derive(u.traces, c.summary.derivedKind, st.line) <= u.traces)
    case _ => true
  }

  ghost predicate Fits(st: Statement, env: Env, u: Universe) {
    WrittenKeys(st.op) <= u.keys && IntroducesIn(st, env, u)
  }

  lemma GetIn(m: Registers, k: Key, u: Universe)
    requires RegistersIn(m, u)
    ensures Get(m, k) <= u.traces
  {
  }

  lemma {:induction false} GetAllIn(m: Registers, rs: seq<Register>, u: Universe)
    requires RegistersIn(m, u)
    ensures GetAll(m, rs) <= u.traces
  {
    if rs != [] {
      GetAllIn(m, rs[1..], u);
      GetIn(m, Reg(rs[0]), u);
    }
  }

  lemma DropIn(m: Registers, ks: set<Key>, u: Universe)
    requires RegistersIn(m, u)
    ensures RegistersIn(m - ks, u)
  {
  }

  lemma PutIn(m: Registers, k: Key, t: Traces, u: Universe)
    requires RegistersIn(m, u) && k in u.keys && t <= u.traces
    ensures RegistersIn(Put(m, k, t), u) && RegistersIn(Add(m, k, t), u) && RegistersIn(Replace(m, k, t), u)
  {
  }

  lemma CopyIn(m: Registers, source: Key, to: Key, u: Universe)
    requires RegistersIn(m, u) && to in u.keys
    ensures RegistersIn(Copy(m, source, to), u)
  {
  }

  lemma ClearHighIn(m: Registers, dest: Register, wide: bool, u: Universe)
    requires RegistersIn(m, u)
    ensures RegistersIn(ClearHigh(m, dest, wide), u)
  {
    DropIn(m, Tracked(High(dest)), u);
  }

  lemma SetPlainIn(m: Registers, dest: Register, t: Traces, wide: bool, u: Universe)
    requires RegistersIn(m, u) && Reg(dest) in u.keys && t <= u.traces
    ensures RegistersIn(SetPlain(m, dest, t, wide), u)
  {
    var ks := {ArrayOf(dest), BuilderOf(dest), ReturnedIn(dest)};
    DropIn(m, ks, u);
    PutIn(m - ks, Reg(dest), t, u);
    ClearHighIn(Put(m - ks, Reg(dest), t), dest, wide, u);
  }

  lemma MoveResultIn(s: State, dest: Register, wide: bool, u: Universe)
    requires StateIn(s, u) && Tracked(dest) <= u.keys
    ensures RegistersIn(AfterMoveResult(s, dest, wide), u)
  {
    var m := s.regs - {ArrayOf(dest), BuilderOf(dest), ReturnedIn(dest)};
    DropIn(s.regs, {ArrayOf(dest), BuilderOf(dest), ReturnedIn(dest)}, u);
    DropIn(m, PENDINGS, u);
    var m1 := Put(m - PENDINGS, Reg(dest), s.pending);
    PutIn(m - PENDINGS, Reg(dest), s.pending, u);
    var m2 := Put(m1, ArrayOf(dest), Get(s.regs, PendingArray));
    PutIn(m1, ArrayOf(dest), Get(s.regs, PendingArray), u);
    var m3 := Put(m2, ReturnedIn(dest), Get(s.regs, PendingReturn));
    PutIn(m2, ReturnedIn(dest), Get(s.regs, PendingReturn), u);
    PutIn(m3, BuilderOf(dest), Get(s.regs, PendingBuilder), u);
    ClearHighIn(Put(m3, BuilderOf(dest), Get(s.regs, PendingBuilder)), dest, wide, u);
  }

  lemma MoveIn(m: Registers, dest: Register, src: Register, form: MoveForm, u: Universe)
    requires RegistersIn(m, u) && Tracked(dest) <= u.keys
    ensures RegistersIn(AfterMove(m, dest, src, form), u)
  {
    var traces := MoveTraces(m, src, form);
    var m1 := if form.Wide? then m - Tracked(dest) - Tracked(High(dest)) else m;
    PutIn(m1, Reg(dest), traces, u);
    var m2 := ClearHigh(Put(m1, Reg(dest), traces), dest, form.Wide?);
    ClearHighIn(Put(m1, Reg(dest), traces), dest, form.Wide?, u);
    CopyIn(m2, ArrayOf(src), ArrayOf(dest), u);
    DropIn(m2, {ArrayOf(dest)}, u);
    var m3 := CopyIfObject(m2, ArrayOf(src), ArrayOf(dest), form);
    CopyIn(m3, BuilderOf(src), BuilderOf(dest), u);
    DropIn(m3, {BuilderOf(dest)}, u);
    CopyIn(CopyIfObject(m3, BuilderOf(src), BuilderOf(dest), form), ReturnedIn(src), ReturnedIn(dest), u);
  }

  lemma SummaryIn(m: Registers, c: Call, line: int, env: Env, u: Universe)
    requires RegistersIn(m, u) && Fits(Statement(line, Invoke(c)), env, u)
    ensures StateIn(AfterSummary(m, c, line, env), u)
  {
    var args := c.args;
    GetAllIn(m, args, u);
    if args != [] {
      GetAllIn(m, args[1..], u);
      GetIn(m, Reg(args[0]), u);
      GetIn(m, BuilderOf(args[0]), u);
    }
    match c.summary
    case BuilderMutator(returnsBuilder) =>
      if args != [] {
        PutIn(m, BuilderOf(args[0]), GetAll(m, args[1..]), u);
        PutIn(Add(m, BuilderOf(args[0]), GetAll(m, args[1..])), PendingBuilder,
              Get(m, BuilderOf(args[0])) + GetAll(m, args[1..]), u);
      }
    case _ =>
  }

  lemma StepIn(st: Statement, s: State, env: Env, u: Universe)
    requires StateIn(s, u) && Fits(st, env, u)
    ensures StateIn(Step(st, s, env), u)
  {
    var m := s.regs - PENDINGS;
    DropIn(s.regs, PENDINGS, u);
    match st.op
    case StaticGet(dest, field, wide) => SetPlainIn(m, dest, Summaries(env.fields, field), wide, u);
    case MoveResult(dest, wide) => MoveResultIn(s, dest, wide, u);
    case Move(dest, src, form) => MoveIn(m, dest, src, form, u);
    case ArrayGet(dest, base, wide) =>
      SetPlainIn(m, dest, ElementTraces(m - {ArrayOf(dest), BuilderOf(dest), ReturnedIn(dest)}, base), wide, u);
    case Write(dest, sources, wide) =>
      GetAllIn(m, sources, u);
      DropIn(m, Tracked(dest), u);
      ClearHighIn(m - Tracked(dest), dest, wide, u);
      PutIn(ClearHigh(m - Tracked(dest), dest, wide), Reg(dest), GetAll(m, sources), u);
    case FilledNewArray(elements) =>
      GetAllIn(m, elements, u);
      PutIn(m, PendingArray, GetAll(m, elements), u);
    case Invoke(c) =>
      SummaryIn(m, c, st.line, env, u);
      PutIn(AfterSummary(m, c, st.line, env).regs, PendingReturn, Summaries(env.returnTaints, c.target), u);
    case _ =>
  }

  // ----- the loop stays inside -----

  ghost predicate ConfigIn(c: Config, u: Universe) {
    forall i :: i in c.states ==> StateIn(c.states[i], u)
  }

  ghost predicate ProgramFits(p: Program, env: Env, u: Universe) {
    forall i :: 0 <= i < |p.code| ==> Fits(p.code[i], env, u)
  }

  /** One thing that may be known: that an instruction was visited, or something about its state. */
  datatype Known =
    | Visited(at: nat)
    | Present(at: nat, key: Key)
    | Carries(at: nat, key: Key, trace: Trace)
    | Awaits(at: nat, trace: Trace)

  ghost predicate Knows(c: Config, x: Known) {
    && x.at in c.states
    && match x
       case Visited(i) => true
       case Present(i, k) => k in c.states[i].regs
       case Carries(i, k, t) => k in c.states[i].regs && t in c.states[i].regs[k]
       case Awaits(i, t) => t in c.states[i].pending
  }

  ghost function AllKnowable(n: nat, u: Universe): set<Known> {
    (set i: nat | 0 <= i < n :: Visited(i))
    + (set i: nat, k | 0 <= i < n && k in u.keys :: Present(i, k))
    + (set i: nat, k, t | 0 <= i < n && k in u.keys && t in u.traces :: Carries(i, k, t))
    + (set i: nat, t | 0 <= i < n && t in u.traces :: Awaits(i, t))
  }

  ghost function Unknown(c: Config, n: nat, u: Universe): set<Known> {
    set x | x in AllKnowable(n, u) && !Knows(c, x)
  }

  lemma SmallerSet<T>(a: set<T>, b: set<T>, x: T)
    requires a <= b && x in b && x !in a
    ensures |a| < |b|
  {
    assert a <= b - {x};
    SubsetSize(a, b - {x});
  }

  lemma NothingNew(s: State, t: State)
    requires Leq(s, t) && t.regs.Keys <= s.regs.Keys && t.pending <= s.pending
    requires forall k :: k in t.regs && k in s.regs ==> t.regs[k] <= s.regs[k]
    ensures s == t
  {
    forall k | k in s.regs ensures Get(s.regs, k) == Get(t.regs, k) {
      assert s.regs[k] <= t.regs[k];
    }
    Pointwise(s.regs, t.regs);
  }

  /** A state that grew knows something new. */
  lemma GrownKnows(i: nat, s: State, t: State) returns (x: Known)
    requires Leq(s, t) && s != t
    ensures x.at == i && !x.Visited?
    ensures forall c: Config :: i in c.states && c.states[i] == s ==> !Knows(c, x)
    ensures forall c: Config :: i in c.states && c.states[i] == t ==> Knows(c, x)
  {
    if k :| k in t.regs && k !in s.regs {
      x := Present(i, k);
    } else if k, y :| k in t.regs && y in t.regs[k] && (k in s.regs ==> y !in s.regs[k]) {
      x := Carries(i, k, y);
    } else if y :| y in t.pending && y !in s.pending {
      x := Awaits(i, y);
    } else {
      NothingNew(s, t);
      assert false;
    }
  }

  lemma DeliverShrinks(c: Config, j: nat, after: State, n: nat, u: Universe)
    requires ConfigIn(c, u) && StateIn(after, u) && j < n
    ensures var d := Deliver(c, j, after);
            ConfigIn(d, u) && Unknown(d, n, u) <= Unknown(c, n, u)
            && (d == c || |Unknown(d, n, u)| < |Unknown(c, n, u)|)
  {
    var d := Deliver(c, j, after);
    if d != c {
      if j !in c.states {
        SmallerSet(Unknown(d, n, u), Unknown(c, n, u), Visited(j));
      } else {
        JoinIsUpper(c.states[j], after);
        var x := GrownKnows(j, c.states[j], d.states[j]);
        assert StateIn(d.states[j], u);
        assert x in AllKnowable(n, u);
        SmallerSet(Unknown(d, n, u), Unknown(c, n, u), x);
      }
    }
  }

  lemma {:induction false} DeliverAllShrinks(c: Config, targets: seq<nat>, after: State, n: nat, u: Universe)
    requires ConfigIn(c, u) && StateIn(after, u) && forall j :: j in targets ==> j < n
    ensures var d := DeliverAll(c, targets, after);
            ConfigIn(d, u) && (d == c || |Unknown(d, n, u)| < |Unknown(c, n, u)|)
    decreases |targets|
  {
    if targets != [] {
      assert targets[0] in targets && forall j :: j in targets[1..] ==> j in targets;
      DeliverShrinks(c, targets[0], after, n, u);
      DeliverAllShrinks(Deliver(c, targets[0], after), targets[1..], after, n, u);
    }
  }

  lemma AdvanceShrinks(p: Program, env: Env, c: Config, u: Universe)
    requires Running(p, c) && c.queue != [] && ConfigIn(c, u) && ProgramFits(p, env, u)
    ensures var d := Advance(p, env, c);
            ConfigIn(d, u)
            && (|Unknown(d, |p.code|, u)| < |Unknown(c, |p.code|, u)|
                || (|Unknown(d, |p.code|, u)| == |Unknown(c, |p.code|, u)| && |d.queue| < |c.queue|))
  {
    var h := Head(p, c);
    var after := Step(p.code[h], c.states[h], env);
    StepIn(p.code[h], c.states[h], env, u);
    var mid := Config(c.states, c.queue[1..], c.found.Plus(Report(p.code[h], after.regs, env)));
    assert Unknown(mid, |p.code|, u) == Unknown(c, |p.code|, u);
    DeliverAllShrinks(mid, p.succs[h], after, |p.code|, u);
  }

  lemma RoundShrinks(p: Program, env: Env, c: Config, u: Universe) returns (d: Config)
    requires Running(p, c) && c.queue != [] && ConfigIn(c, u) && ProgramFits(p, env, u)
    ensures Running(p, d) && ConfigIn(d, u)
    ensures |Unknown(d, |p.code|, u)| < |Unknown(c, |p.code|, u)|
         || (|Unknown(d, |p.code|, u)| == |Unknown(c, |p.code|, u)| && |d.queue| < |c.queue|)
    ensures d == Advance(p, env, c)
  {
    AdvanceRuns(p, env, c);
    AdvanceShrinks(p, env, c, u);
    d := Advance(p, env, c);
  }

  /** From any configuration inside the universe, some number of rounds empties the queue. */
  lemma {:induction false} Empties(p: Program, env: Env, c: Config, u: Universe) returns (steps: nat)
    requires Running(p, c) && ConfigIn(c, u) && ProgramFits(p, env, u)
    ensures Run(p, env, c, steps).queue == []
    decreases |Unknown(c, |p.code|, u)|, |c.queue|
  {
    if c.queue == [] {
      steps := 0;
    } else {
      var d := RoundShrinks(p, env, c, u);
      steps := Empties(p, env, d, u);
      OneRoundMore(p, env, c, d, steps);
      steps := steps + 1;
    }
  }

  lemma MoreStepsChangeNothing(p: Program, env: Env, c: Config, steps: nat, more: nat)
    requires Running(p, c) && Run(p, env, c, steps).queue == [] && steps <= more
    ensures Run(p, env, c, more) == Run(p, env, c, steps)
  {
    RunIsIterate(p, env, c, steps);
    RunIsIterate(p, env, c, more);
    IterateStays(Round(p, env), c, steps, more);
  }

  // ----- there is such a universe -----

  function SummaryKinds(st: Statement): set<string> {
    match st.op
    case Invoke(c) =>
      {EXTERNAL} + (if c.summary.Source? then {c.summary.kind} else {})
      + (if c.summary.DerivedAs? then {c.summary.derivedKind} else {})
    case _ => {}
  }

  ghost function AllValues<K>(m: map<K, Traces>): Traces {
    set k, t | k in m && t in m[k] :: t
  }

  ghost function Given(env: Env, initial: Registers): Traces {
    AllValues(initial) + AllValues(env.fields) + AllValues(env.returnTaints)
  }

  ghost function Kinds(p: Program, given: Traces): set<string> {
    (set t | t in given :: t.kind) + (set i, k | 0 <= i < |p.code| && k in SummaryKinds(p.code[i]) :: k)
  }

  ghost function Lines(p: Program, given: Traces): set<int> {
    (set t | t in given :: t.line) + (set i | 0 <= i < |p.code| :: p.code[i].line)
  }

  ghost function Origins(env: Env, given: Traces): set<(string, string)> {
    (set t | t in given :: (t.methodKey, t.file)) + {(env.methodKey, env.file)}
  }

  ghost function WholeUniverse(p: Program, env: Env, initial: Registers): Universe {
    var given := Given(env, initial);
    Universe(
      initial.Keys + (set i, k | 0 <= i < |p.code| && k in WrittenKeys(p.code[i].op) :: k),
      set k, l, o | k in Kinds(p, given) && l in Lines(p, given) && o in Origins(env, given) :: Trace(k, l, o.0, o.1))
  }

  lemma InUniverse(p: Program, env: Env, initial: Registers, t: Trace)
    requires var given := Given(env, initial);
             t.kind in Kinds(p, given) && t.line in Lines(p, given) && (t.methodKey, t.file) in Origins(env, given)
    ensures t in WholeUniverse(p, env, initial).traces
  {
    var o := (t.methodKey, t.file);
    assert t == Trace(t.kind, t.line, o.0, o.1);
  }

  lemma GivenInUniverse(p: Program, env: Env, initial: Registers)
    ensures Given(env, initial) <= WholeUniverse(p, env, initial).traces
  {
    var given := Given(env, initial);
    forall t | t in given ensures t in WholeUniverse(p, env, initial).traces {
      assert t.kind in Kinds(p, given);
      assert t.line in Lines(p, given);
      assert (t.methodKey, t.file) in Origins(env, given);
      InUniverse(p, env, initial, t);
    }
  }

  lemma StatementFits(p: Program, env: Env, initial: Registers, i: nat)
    requires i < |p.code|
    ensures Fits(p.code[i], env, WholeUniverse(p, env, initial))
  {
    var u := WholeUniverse(p, env, initial);
    var given := Given(env, initial);
    var st := p.code[i];
    GivenInUniverse(p, env, initial);
    forall k | k in WrittenKeys(st.op) ensures k in u.keys {
    }
    assert st.line in Lines(p, given);
    assert (env.methodKey, env.file) in Origins(env, given);
    match st.op
    case StaticGet(_, field, _) => ValuesOf(env.fields, field);
    case Invoke(c) =>
      ValuesOf(env.returnTaints, c.target);
      forall k | k in SummaryKinds(st) ensures k in Kinds(p, given) {
      }
      assert EXTERNAL in SummaryKinds(st);
      InUniverse(p, env, initial, Trace(EXTERNAL, st.line, env.methodKey, env.file));
      if c.summary.Source? {
        assert c.summary.kind in SummaryKinds(st);
        InUniverse(p, env, initial, Trace(c.summary.kind, st.line, env.methodKey, env.file));
      } else if c.summary.DerivedAs? {
        assert c.summary.derivedKind in SummaryKinds(st);
        forall t | t in u.traces ensures Trace(c.summary.derivedKind, st.line, t.methodKey, t.file) in u.traces {
          InUniverse(p, env, initial, Trace(c.summary.derivedKind, st.line, t.methodKey, t.file));
        }
      }
    case _ =>
  }

  lemma ValuesOf<K>(m: map<K, Traces>, k: K)
    ensures k in m ==> m[k] <= AllValues(m)
  {
  }

  /**
   For every method, whatever the tables hold, the worklist empties after finitely many rounds, and
   no larger budget changes the result.
   */
  lemma AnalysisEnds(p: Program, env: Env, initial: Registers) returns (enough: nat)
    requires WellFormed(p)
    ensures Analysis(p, env, initial, enough).queue == []
    ensures forall budget: nat :: budget >= enough ==>
                Analysis(p, env, initial, budget) == Analysis(p, env, initial, enough)
  {
    var u := WholeUniverse(p, env, initial);
    GivenInUniverse(p, env, initial);
    forall k | k in initial ensures initial[k] <= u.traces {
      ValuesOf(initial, k);
    }
    forall i | 0 <= i < |p.code| ensures Fits(p.code[i], env, u) {
      StatementFits(p, env, initial, i);
    }
    StartInvariant(p, env, initial);
    enough := Empties(p, env, Start(initial), u);
    forall budget: nat | budget >= enough
      ensures Analysis(p, env, initial, budget) == Analysis(p, env, initial, enough)
    {
      MoreStepsChangeNothing(p, env, Start(initial), enough, budget);
    }
  }
}
