/**
 The inner worklist: register may-flow over the control-flow graph of one method. The loop is the
 iteration of one step; what it reaches is a post-fixpoint over exactly the reachable instructions,
 covers every path, and, away from the guarded forms, holds nothing that no path carries.
 */
module RegisterFlow {
  import opened Wrappers
  import opened Descriptors
  import opened RegisterState
  import opened Transfer
  import opened Distributivity

  /** The instructions of a method and, for each, where control may go next. */
  datatype Program = Program(code: seq<Statement>, succs: seq<seq<nat>>)

  predicate WellFormed(p: Program) {
    && |p.code| > 0 && |p.succs| == |p.code|
    && forall i, k :: 0 <= i < |p.succs| && 0 <= k < |p.succs[i]| ==> p.succs[i][k] < |p.code|
  }

  /** The state of the loop: what is known before each visited instruction, what is to be visited, what was found. */
  datatype Config = Config(states: map<nat, State>, queue: seq<nat>, found: Effects)

  function Start(initial: Registers): Config {
    Config(map[0 := State(initial, {})], [0], NOTHING)
  }

  /** Hands a state to one successor, which is queued if it is new or learns something. */
  function Deliver(c: Config, j: nat, after: State): Config {
    if j !in c.states then c.(states := c.states[j := after], queue := c.queue + [j])
    else
      var merged := JoinStates(c.states[j], after);
      if merged != c.states[j] then c.(states := c.states[j := merged], queue := c.queue + [j]) else c
  }

  function DeliverAll(c: Config, targets: seq<nat>, after: State): Config
    decreases |targets|
  {
    if targets == [] then c else DeliverAll(Deliver(c, targets[0], after), targets[1..], after)
  }

  predicate Running(p: Program, c: Config) {
    && WellFormed(p)
    && (forall i :: i in c.states ==> i < |p.code|)
    && (forall q :: q in c.queue ==> q in c.states)
  }

  function Head(p: Program, c: Config): (i: nat)
    requires Running(p, c) && c.queue != []
    ensures i == c.queue[0] && i in c.states && i < |p.code|
  {
    assert c.queue[0] in c.queue;
    c.queue[0]
  }

  /** One round of the loop. */
  function Advance(p: Program, env: Env, c: Config): Config
    requires Running(p, c) && c.queue != []
  {
    var i := Head(p, c);
    var after := Step(p.code[i], c.states[i], env);
    var found := c.found.Plus(Report(p.code[i], after.regs, env));
    DeliverAll(Config(c.states, c.queue[1..], found), p.succs[i], after)
  }

  function Run(p: Program, env: Env, c: Config, steps: nat): (r: Config)
    requires Running(p, c)
    ensures Running(p, r)
    decreases steps
  {
    if c.queue == [] || steps == 0 then c
    else
      AdvanceRuns(p, env, c);
      Run(p, env, Advance(p, env, c), steps - 1)
  }

  // ----- what one round changes -----

  /** States only grow, whatever grew is queued, and nothing leaves the queue. */
  ghost predicate Extends(c: Config, d: Config) {
    && (forall i :: i in c.states ==> i in d.states && Leq(c.states[i], d.states[i]))
    && (forall i :: i in d.states && i !in d.queue ==> i in c.states && d.states[i] == c.states[i])
    && (forall q :: q in c.queue ==> q in d.queue)
    && d.found == c.found
  }

  ghost predicate Delivered(d: Config, j: nat, after: State) {
    j in d.states && Leq(after, d.states[j])
  }

  lemma DeliverExtends(c: Config, j: nat, after: State)
    ensures Extends(c, Deliver(c, j, after)) && Delivered(Deliver(c, j, after), j, after)
    ensures Deliver(c, j, after).states.Keys == c.states.Keys + {j}
    ensures forall q :: q in Deliver(c, j, after).queue ==> q in c.queue || q == j
  {
    if j in c.states {
      JoinIsUpper(c.states[j], after);
    }
  }

  lemma ExtendsTransitive(c: Config, d: Config, e: Config)
    requires Extends(c, d) && Extends(d, e)
    ensures Extends(c, e)
  {
    forall i | i in c.states ensures i in e.states && Leq(c.states[i], e.states[i]) {
      LeqTransitive(c.states[i], d.states[i], e.states[i]);
    }
  }

  lemma {:induction false} DeliverAllExtends(c: Config, targets: seq<nat>, after: State)
    ensures var d := DeliverAll(c, targets, after);
            && Extends(c, d)
            && (forall j :: j in targets ==> Delivered(d, j, after))
            && (forall i :: i in d.states ==> i in c.states || i in targets)
            && (forall q :: q in d.queue ==> q in c.queue || q in targets)
    decreases |targets|
  {
    if targets != [] {
      var mid := Deliver(c, targets[0], after);
      var d := DeliverAll(c, targets, after);
      DeliverExtends(c, targets[0], after);
      DeliverAllExtends(mid, targets[1..], after);
      ExtendsTransitive(c, mid, d);
      LeqTransitive(after, mid.states[targets[0]], d.states[targets[0]]);
      assert targets == [targets[0]] + targets[1..];
    }
  }

  lemma AdvanceRuns(p: Program, env: Env, c: Config)
    requires Running(p, c) && c.queue != []
    ensures Running(p, Advance(p, env, c))
  {
    var i := Head(p, c);
    var after := Step(p.code[i], c.states[i], env);
    DeliverAllExtends(Config(c.states, c.queue[1..], c.found.Plus(Report(p.code[i], after.regs, env))), p.succs[i],
                      after);
  }

  // A step repeated, whatever the step is.

  ghost function Iterate<C>(step: C -> C, c: C, n: nat): C {
    if n == 0 then c else Iterate(step, step(c), n - 1)
  }

  lemma {:induction false} IterateKeeps<C(!new)>(step: C -> C, P: C -> bool, c: C, n: nat)
    requires P(c) && forall x :: P(x) ==> P(step(x))
    ensures P(Iterate(step, c, n))
    decreases n
  {
    if n > 0 { IterateKeeps(step, P, step(c), n - 1); }
  }

  lemma {:induction false} IterateBack<C(!new)>(step: C -> C, P: C -> bool, c: C, n: nat)
    requires P(Iterate(step, c, n)) && forall x :: P(step(x)) ==> P(x)
    ensures P(c)
    decreases n
  {
    if n > 0 { IterateBack(step, P, step(c), n - 1); }
  }

  /** Steps that agree wherever something still holds afterwards lead to the same end, if it holds there. */
  lemma {:induction false} IterateSame<C(!new)>(step: C -> C, step': C -> C, P: C -> bool, c: C, n: nat)
    requires P(Iterate(step, c, n)) && forall x :: P(step(x)) ==> P(x) && step'(x) == step(x)
    ensures Iterate(step', c, n) == Iterate(step, c, n)
    decreases n
  {
    if n > 0 {
      IterateBack(step, P, step(c), n - 1);
      IterateSame(step, step', P, step(c), n - 1);
    }
  }

  lemma {:induction false} IterateStays<C(!new)>(step: C -> C, c: C, n: nat, more: nat)
    requires n <= more && step(Iterate(step, c, n)) == Iterate(step, c, n)
    ensures Iterate(step, c, more) == Iterate(step, c, n)
    decreases more
  {
    if more > 0 {
      if n > 0 { IterateStays(step, step(c), n - 1, more - 1); } else { IterateStays(step, c, 0, more - 1); }
    }
  }

  /** A round, which does nothing when nothing is queued. */
  ghost function Round(p: Program, env: Env): Config -> Config {
    (c: Config) => if Running(p, c) && c.queue != [] then Advance(p, env, c) else c
  }

  lemma {:induction false} RunIsIterate(p: Program, env: Env, c: Config, steps: nat)
    requires Running(p, c)
    ensures Run(p, env, c, steps) == Iterate(Round(p, env), c, steps)
    decreases steps
  {
    if steps > 0 {
      if c.queue != [] { AdvanceRuns(p, env, c); }
      RunIsIterate(p, env, Round(p, env)(c), steps - 1);
    }
  }

  /** What every round keeps holds at the end. */
  lemma {:induction false} RunInduction(p: Program, env: Env, P: Config -> bool, c: Config, steps: nat)
    requires Running(p, c) && P(c)
    requires forall x :: Running(p, x) && x.queue != [] && P(x) ==> P(Advance(p, env, x))
    ensures P(Run(p, env, c, steps))
  {
    var Q := x => Running(p, x) && P(x);
    forall x | Q(x) ensures Q(Round(p, env)(x)) {
      if x.queue != [] { AdvanceRuns(p, env, x); }
    }
    IterateKeeps(Round(p, env), Q, c, steps);
    RunIsIterate(p, env, c, steps);
  }

  lemma OneRoundMore(p: Program, env: Env, c: Config, d: Config, steps: nat)
    requires Running(p, c) && c.queue != [] && Running(p, d) && d == Advance(p, env, c)
    ensures Run(p, env, c, steps + 1) == Run(p, env, d, steps)
  {
  }

  // ----- the post-fixpoint -----

  /** What instruction i does has reached all its successors, and what it reports has been recorded. */
  ghost predicate Settled(p: Program, env: Env, c: Config, i: nat)
    requires Running(p, c) && i in c.states
  {
    var after := Step(p.code[i], c.states[i], env);
    && (forall j :: j in p.succs[i] ==> Delivered(c, j, after))
    && Report(p.code[i], after.regs, env).Within(c.found)
  }

  /** Everything that is not waiting has settled. */
  ghost predicate Invariant(p: Program, env: Env, initial: Registers, c: Config) {
    && Running(p, c)
    && Delivered(c, 0, State(initial, {}))
    && (forall i :: i in c.states && i !in c.queue ==> Settled(p, env, c, i))
    && (forall i :: i in c.states ==> Reachable(p, i))
  }

  lemma StartInvariant(p: Program, env: Env, initial: Registers)
    requires WellFormed(p)
    ensures Invariant(p, env, initial, Start(initial))
  {
    assert IsPath(p, [0]) && Last([0]) == 0;
  }

  lemma AdvanceInvariant(p: Program, env: Env, initial: Registers, c: Config)
    requires Invariant(p, env, initial, c) && c.queue != []
    ensures Invariant(p, env, initial, Advance(p, env, c))
  {
    var h := Head(p, c);
    var after := Step(p.code[h], c.states[h], env);
    var report := Report(p.code[h], after.regs, env);
    var mid := Config(c.states, c.queue[1..], c.found.Plus(report));
    AdvanceRuns(p, env, c);
    DeliverAllExtends(mid, p.succs[h], after);
    RoundKeeps(p, env, initial, c, mid, Advance(p, env, c), h, after, report);
  }

  /** The bookkeeping of a round, whatever was computed in it. */
  lemma RoundKeeps(p: Program, env: Env, initial: Registers, c: Config, mid: Config, d: Config, h: nat, after: State,
                   report: Effects)
    requires Invariant(p, env, initial, c) && c.queue != [] && h == Head(p, c) && Running(p, d)
    requires after == Step(p.code[h], c.states[h], env) && report == Report(p.code[h], after.regs, env)
    requires mid == Config(c.states, c.queue[1..], c.found.Plus(report))
    requires Extends(mid, d) && forall j :: j in p.succs[h] ==> Delivered(d, j, after)
    requires forall i :: i in d.states ==> i in c.states || i in p.succs[h]
    ensures Invariant(p, env, initial, d)
  {
    LeqTransitive(State(initial, {}), c.states[0], d.states[0]);
    forall i | i in d.states && i !in c.states ensures Reachable(p, i) {
      ReachableNext(p, h, i);
    }
    RoundSettles(p, env, c, mid, d, h, after, report);
  }

  lemma RoundSettles(p: Program, env: Env, c: Config, mid: Config, d: Config, h: nat, after: State, report: Effects)
    requires Running(p, c) && c.queue != [] && h == Head(p, c) && Running(p, d)
    requires forall i :: i in c.states && i !in c.queue ==> Settled(p, env, c, i)
    requires after == Step(p.code[h], c.states[h], env) && report == Report(p.code[h], after.regs, env)
    requires mid == Config(c.states, c.queue[1..], c.found.Plus(report))
    requires Extends(mid, d) && forall j :: j in p.succs[h] ==> Delivered(d, j, after)
    ensures forall i :: i in d.states && i !in d.queue ==> Settled(p, env, d, i)
  {
    assert c.queue == [h] + c.queue[1..];
    forall i | i in d.states && i !in d.queue ensures Settled(p, env, d, i) {
      assert i in c.states && d.states[i] == c.states[i];
      if i != h {
        SettledStays(p, env, c, mid, d, i);
      }
    }
  }

  lemma ReachableNext(p: Program, i: nat, j: nat)
    requires WellFormed(p) && i < |p.code| && Reachable(p, i) && j in p.succs[i]
    ensures Reachable(p, j)
  {
    var path :| IsPath(p, path) && Last(path) == i;
    PathExtends(p, path, j);
  }

  lemma SettledStays(p: Program, env: Env, c: Config, mid: Config, d: Config, i: nat)
    requires Running(p, c) && Running(p, d) && Extends(mid, d)
    requires mid.states == c.states && c.found.Within(mid.found)
    requires i in c.states && Settled(p, env, c, i)
    requires i in d.states && d.states[i] == c.states[i]
    ensures Settled(p, env, d, i)
  {
    var after := Step(p.code[i], c.states[i], env);
    forall j | j in p.succs[i] ensures Delivered(d, j, after) {
      LeqTransitive(after, c.states[j], d.states[j]);
    }
  }

  // ----- paths -----

  /** A path of the control-flow graph from the entry. */
  ghost predicate IsPath(p: Program, path: seq<nat>) {
    && WellFormed(p)
    && path != [] && path[0] == 0
    && (forall k :: 0 <= k < |path| ==> path[k] < |p.code|)
    && (forall k :: 0 <= k < |path| - 1 ==> path[k + 1] in p.succs[path[k]])
  }

  function Last(path: seq<nat>): nat
    requires path != []
  {
    path[|path| - 1]
  }

  lemma PathPrefix(p: Program, path: seq<nat>)
    requires IsPath(p, path) && |path| > 1
    ensures IsPath(p, path[..|path| - 1])
    ensures Last(path) in p.succs[Last(path[..|path| - 1])]
  {
    assert path[|path| - 2 + 1] in p.succs[path[|path| - 2]];
  }

  lemma PathExtends(p: Program, path: seq<nat>, j: nat)
    requires IsPath(p, path) && j in p.succs[Last(path)]
    ensures IsPath(p, path + [j]) && Last(path + [j]) == j
  {
  }

  /** The state a path carries to its last instruction: the effect of the others, one after the other. */
  ghost function Arriving(p: Program, env: Env, initial: Registers, path: seq<nat>): State
    requires IsPath(p, path)
    decreases |path|
  {
    if |path| == 1 then State(initial, {})
    else
      PathPrefix(p, path);
      var before := path[..|path| - 1];
      Step(p.code[Last(before)], Arriving(p, env, initial, before), env)
  }

  /** What the last instruction of a path reports from what the path carries to it. */
  ghost function PathReport(p: Program, env: Env, initial: Registers, path: seq<nat>): Effects
    requires IsPath(p, path)
  {
    var st := p.code[Last(path)];
    Report(st, Step(st, Arriving(p, env, initial, path), env).regs, env)
  }

  ghost predicate Reachable(p: Program, i: nat) {
    exists path :: IsPath(p, path) && Last(path) == i
  }

  /** The loop has ended because nothing was left to visit. */
  ghost predicate Finished(p: Program, env: Env, initial: Registers, c: Config) {
    Invariant(p, env, initial, c) && c.queue == []
  }

  lemma {:induction false} PathIsVisited(p: Program, env: Env, initial: Registers, c: Config, path: seq<nat>)
    requires Finished(p, env, initial, c) && IsPath(p, path)
    ensures Last(path) in c.states
    decreases |path|
  {
    if |path| > 1 {
      PathPrefix(p, path);
      PathIsVisited(p, env, initial, c, path[..|path| - 1]);
      assert Settled(p, env, c, Last(path[..|path| - 1]));
    }
  }

  /** Exactly the instructions that some path reaches are visited. */
  lemma VisitsExactlyReachable(p: Program, env: Env, initial: Registers, c: Config, i: nat)
    requires Finished(p, env, initial, c)
    ensures i in c.states <==> Reachable(p, i)
  {
    if Reachable(p, i) {
      var path :| IsPath(p, path) && Last(path) == i;
      PathIsVisited(p, env, initial, c, path);
    }
  }

  /** Nothing a path carries through unguarded instructions is missing from the result. */
  lemma {:induction false} PathIsCovered(p: Program, env: Env, initial: Registers, c: Config, path: seq<nat>)
    requires Finished(p, env, initial, c) && IsPath(p, path)
    requires forall k :: 0 <= k < |path| - 1 ==> !Guarded(p.code[path[k]].op)
    ensures Last(path) in c.states && Leq(Arriving(p, env, initial, path), c.states[Last(path)])
    decreases |path|
  {
    if |path| > 1 {
      PathPrefix(p, path);
      var before := path[..|path| - 1];
      var i := Last(before);
      PathIsCovered(p, env, initial, c, before);
      assert Settled(p, env, c, i);
      assert !Guarded(p.code[path[|path| - 2]].op);
      StepMonotone(p.code[i], Arriving(p, env, initial, before), c.states[i], env);
      LeqTransitive(Arriving(p, env, initial, path), Step(p.code[i], c.states[i], env), c.states[Last(path)]);
    }
  }

  /** Every flow, argument, field write, return and call that some path gives rise to has been reported. */
  lemma PathIsReported(p: Program, env: Env, initial: Registers, c: Config, path: seq<nat>)
    requires Finished(p, env, initial, c) && IsPath(p, path)
    requires forall k :: 0 <= k < |path| ==> !Guarded(p.code[path[k]].op)
    ensures PathReport(p, env, initial, path).Within(c.found)
  {
    PathIsCovered(p, env, initial, c, path);
    var i := Last(path);
    var st := p.code[i];
    var arriving := Arriving(p, env, initial, path);
    assert !Guarded(p.code[path[|path| - 1]].op);
    StepMonotone(st, arriving, c.states[i], env);
    assert Settled(p, env, c, i);
    var small, large := Step(st, arriving, env), Step(st, c.states[i], env);
    LeqIsJoin(small, large);
    ReportDistributes(st, small.regs, large.regs, env);
  }

  // ----- nothing but paths -----

  ghost predicate Unguarded(p: Program) {
    forall i :: 0 <= i < |p.code| ==> !Guarded(p.code[i].op)
  }

  /** s is what some path carries to instruction i. */
  ghost predicate Arrives(p: Program, env: Env, initial: Registers, i: nat, s: State) {
    exists path :: IsPath(p, path) && Last(path) == i && s == Arriving(p, env, initial, path)
  }

  /** e is what some path reports at its end. */
  ghost predicate Reported(p: Program, env: Env, initial: Registers, e: Effects) {
    exists path :: IsPath(p, path) && e == PathReport(p, env, initial, path)
  }

  lemma ArrivesNext(p: Program, env: Env, initial: Registers, i: nat, s: State, j: nat)
    requires WellFormed(p) && i < |p.code| && Arrives(p, env, initial, i, s) && j in p.succs[i]
    ensures Arrives(p, env, initial, j, Step(p.code[i], s, env))
  {
    var path :| IsPath(p, path) && Last(path) == i && s == Arriving(p, env, initial, path);
    PathExtends(p, path, j);
    assert (path + [j])[..|path + [j]| - 1] == path;
  }

  ghost predicate AllArrive(p: Program, env: Env, initial: Registers, i: nat, ss: seq<State>) {
    forall k :: 0 <= k < |ss| ==> Arrives(p, env, initial, i, ss[k])
  }

  /** A state that is nothing but a join of what paths carry. */
  ghost predicate Explained(p: Program, env: Env, initial: Registers, i: nat, s: State) {
    exists ss :: ss != [] && AllArrive(p, env, initial, i, ss) && s == JoinAll(ss)
  }

  ghost predicate StatesExplained(p: Program, env: Env, initial: Registers, c: Config) {
    forall i :: i in c.states ==> Explained(p, env, initial, i, c.states[i])
  }

  ghost predicate AllReported(p: Program, env: Env, initial: Registers, es: seq<Effects>) {
    forall k :: 0 <= k < |es| ==> Reported(p, env, initial, es[k])
  }

  ghost predicate FoundExplained(p: Program, env: Env, initial: Registers, c: Config) {
    exists es :: AllReported(p, env, initial, es) && c.found == PlusAll(es)
  }

  lemma JoinExplained(p: Program, env: Env, initial: Registers, j: nat, s: State, t: State)
    requires Explained(p, env, initial, j, s) && Explained(p, env, initial, j, t)
    ensures Explained(p, env, initial, j, JoinStates(s, t))
  {
    var ss :| ss != [] && AllArrive(p, env, initial, j, ss) && s == JoinAll(ss);
    var ts :| ts != [] && AllArrive(p, env, initial, j, ts) && t == JoinAll(ts);
    JoinAllConcat(ss, ts);
    assert AllArrive(p, env, initial, j, ss + ts);
  }

  lemma StepExplained(p: Program, env: Env, initial: Registers, i: nat, s: State, j: nat)
    requires WellFormed(p) && i < |p.code| && Explained(p, env, initial, i, s)
    requires j in p.succs[i] && !Guarded(p.code[i].op)
    ensures Explained(p, env, initial, j, Step(p.code[i], s, env))
  {
    var ss :| ss != [] && AllArrive(p, env, initial, i, ss) && s == JoinAll(ss);
    StepOverJoin(p.code[i], ss, env);
    var ts := StepEach(p.code[i], ss, env);
    forall k | 0 <= k < |ts| ensures Arrives(p, env, initial, j, ts[k]) {
      ArrivesNext(p, env, initial, i, ss[k], j);
    }
    assert AllArrive(p, env, initial, j, ts);
  }

  lemma ReportExplained(p: Program, env: Env, initial: Registers, i: nat, c: Config, d: Config)
    requires WellFormed(p) && i < |p.code| && i in c.states && Explained(p, env, initial, i, c.states[i])
    requires !Guarded(p.code[i].op) && FoundExplained(p, env, initial, c)
    requires d.found == c.found.Plus(Report(p.code[i], Step(p.code[i], c.states[i], env).regs, env))
    ensures FoundExplained(p, env, initial, d)
  {
    var ss :| ss != [] && AllArrive(p, env, initial, i, ss) && c.states[i] == JoinAll(ss);
    var es :| AllReported(p, env, initial, es) && c.found == PlusAll(es);
    ReportOverJoin(p.code[i], ss, env);
    var fs := ReportEach(p.code[i], ss, env);
    forall k | 0 <= k < |fs| ensures Reported(p, env, initial, fs[k]) {
      ArrivalReported(p, env, initial, i, ss[k]);
    }
    PlusAllConcat(es, fs);
    ReportedConcat(p, env, initial, es, fs);
  }

  lemma ReportedConcat(p: Program, env: Env, initial: Registers, es: seq<Effects>, fs: seq<Effects>)
    requires AllReported(p, env, initial, es) && AllReported(p, env, initial, fs)
    ensures AllReported(p, env, initial, es + fs)
  {
  }

  lemma ArrivalReported(p: Program, env: Env, initial: Registers, i: nat, s: State)
    requires i < |p.code| && Arrives(p, env, initial, i, s)
    ensures Reported(p, env, initial, Report(p.code[i], Step(p.code[i], s, env).regs, env))
  {
    var path :| IsPath(p, path) && Last(path) == i && s == Arriving(p, env, initial, path);
    assert Report(p.code[i], Step(p.code[i], s, env).regs, env) == PathReport(p, env, initial, path);
  }

  lemma {:induction false} DeliverAllExplained(p: Program, env: Env, initial: Registers, c: Config, targets: seq<nat>,
                                               after: State)
    requires StatesExplained(p, env, initial, c)
    requires forall j :: j in targets ==> Explained(p, env, initial, j, after)
    ensures StatesExplained(p, env, initial, DeliverAll(c, targets, after))
    decreases |targets|
  {
    if targets != [] {
      DeliverExplained(p, env, initial, c, targets[0], after);
      DeliverAllExplained(p, env, initial, Deliver(c, targets[0], after), targets[1..], after);
    }
  }

  lemma DeliverExplained(p: Program, env: Env, initial: Registers, c: Config, j: nat, after: State)
    requires StatesExplained(p, env, initial, c) && Explained(p, env, initial, j, after)
    ensures StatesExplained(p, env, initial, Deliver(c, j, after))
  {
    if j in c.states {
      JoinExplained(p, env, initial, j, c.states[j], after);
    }
    var d := Deliver(c, j, after);
    forall i | i in d.states ensures Explained(p, env, initial, i, d.states[i]) {
      if i != j {
        assert d.states[i] == c.states[i];
      }
    }
  }

  lemma AdvanceExplained(p: Program, env: Env, initial: Registers, c: Config)
    requires Unguarded(p) && Running(p, c) && c.queue != []
    requires StatesExplained(p, env, initial, c) && FoundExplained(p, env, initial, c)
    ensures StatesExplained(p, env, initial, Advance(p, env, c))
    ensures FoundExplained(p, env, initial, Advance(p, env, c))
  {
    var h := Head(p, c);
    var after := Step(p.code[h], c.states[h], env);
    var mid := Config(c.states, c.queue[1..], c.found.Plus(Report(p.code[h], after.regs, env)));
    forall j | j in p.succs[h] ensures Explained(p, env, initial, j, after) {
      StepExplained(p, env, initial, h, c.states[h], j);
    }
    DeliverAllExplained(p, env, initial, mid, p.succs[h], after);
    DeliverAllExtends(mid, p.succs[h], after);
    ReportExplained(p, env, initial, h, c, Advance(p, env, c));
  }

  lemma StartExplained(p: Program, env: Env, initial: Registers)
    requires WellFormed(p)
    ensures StatesExplained(p, env, initial, Start(initial)) && FoundExplained(p, env, initial, Start(initial))
  {
    assert IsPath(p, [0]) && Last([0]) == 0;
    var s := State(initial, {});
    assert Arrives(p, env, initial, 0, s);
    assert AllArrive(p, env, initial, 0, [s]) && JoinAll([s]) == s;
    assert AllReported(p, env, initial, []) && PlusAll([]) == NOTHING;
  }

  // ----- the result of an analysis, exactly -----

  /** Running the loop from the start of a method, under whatever step budget. */
  function Analysis(p: Program, env: Env, initial: Registers, budget: nat): Config
    requires WellFormed(p)
  {
    Run(p, env, Start(initial), budget)
  }

  lemma AnalysisInvariant(p: Program, env: Env, initial: Registers, budget: nat)
    requires WellFormed(p)
    ensures Invariant(p, env, initial, Analysis(p, env, initial, budget))
  {
    StartInvariant(p, env, initial);
    forall x | Running(p, x) && x.queue != [] && Invariant(p, env, initial, x)
      ensures Invariant(p, env, initial, Advance(p, env, x))
    {
      AdvanceInvariant(p, env, initial, x);
    }
    RunInduction(p, env, x => Invariant(p, env, initial, x), Start(initial), budget);
  }

  lemma AnalysisExplained(p: Program, env: Env, initial: Registers, budget: nat)
    requires WellFormed(p) && Unguarded(p)
    ensures StatesExplained(p, env, initial, Analysis(p, env, initial, budget))
    ensures FoundExplained(p, env, initial, Analysis(p, env, initial, budget))
  {
    StartExplained(p, env, initial);
    var P := (x: Config) => StatesExplained(p, env, initial, x) && FoundExplained(p, env, initial, x);
    forall x | Running(p, x) && x.queue != [] && P(x) ensures P(Advance(p, env, x)) {
      AdvanceExplained(p, env, initial, x);
    }
    RunInduction(p, env, P, Start(initial), budget);
  }

  /**
   Without guarded forms, and when the loop ended by itself, a register is said to carry a trace at
   an instruction exactly when some path from the entry carries it there.
   */
  lemma CarriesExactlyPaths(p: Program, env: Env, initial: Registers, budget: nat, i: nat, k: Key, t: Trace)
    requires WellFormed(p) && Unguarded(p)
    requires Analysis(p, env, initial, budget).queue == []
    ensures var c := Analysis(p, env, initial, budget);
            (i in c.states && t in Get(c.states[i].regs, k)) <==>
            exists path :: IsPath(p, path) && Last(path) == i && t in Get(Arriving(p, env, initial, path).regs, k)
  {
    var c := Analysis(p, env, initial, budget);
    AnalysisInvariant(p, env, initial, budget);
    AnalysisExplained(p, env, initial, budget);
    if i in c.states && t in Get(c.states[i].regs, k) {
      CarriedBySomePath(p, env, initial, c, i, k, t);
    }
    if exists path :: IsPath(p, path) && Last(path) == i && t in Get(Arriving(p, env, initial, path).regs, k) {
      var path :| IsPath(p, path) && Last(path) == i && t in Get(Arriving(p, env, initial, path).regs, k);
      CarriedAtTheEnd(p, env, initial, c, path, k, t);
    }
  }

  lemma CarriedAtTheEnd(p: Program, env: Env, initial: Registers, c: Config, path: seq<nat>, k: Key, t: Trace)
    requires Unguarded(p) && Finished(p, env, initial, c) && IsPath(p, path)
    requires t in Get(Arriving(p, env, initial, path).regs, k)
    ensures Last(path) in c.states && t in Get(c.states[Last(path)].regs, k)
  {
    PathIsCovered(p, env, initial, c, path);
  }

  lemma CarriedBySomePath(p: Program, env: Env, initial: Registers, c: Config, i: nat, k: Key, t: Trace)
    requires StatesExplained(p, env, initial, c) && i in c.states && t in Get(c.states[i].regs, k)
    ensures exists path :: IsPath(p, path) && Last(path) == i && t in Get(Arriving(p, env, initial, path).regs, k)
  {
    var ss :| ss != [] && AllArrive(p, env, initial, i, ss) && c.states[i] == JoinAll(ss);
    var n := JoinAllHolds(ss, k, t);
    assert Arrives(p, env, initial, i, ss[n]);
  }

  lemma {:induction false} PlusAllHolds(es: seq<Effects>, one: Effects) returns (n: nat)
    requires IsOne(one) && one.Within(PlusAll(es))
    ensures n < |es| && one.Within(es[n])
    decreases |es|
  {
    if es == [] {
      OneIsNotNothing(one);
      assert false;
    } else {
      n := |es| - 1;
      if !one.Within(es[n]) {
        OneInPlus(one, PlusAll(es[..n]), es[n]);
        n := PlusAllHolds(es[..n], one);
      }
    }
  }

  /** A single reported fact: a flow, an argument, a field write, a field read, a returned trace or a call. */
  datatype Fact =
    | FlowFact(flow: Flow)
    | ArgumentFact(argument: (string, Register, Trace))
    | WriteFact(write: (string, Trace))
    | ReadFact(field: string)
    | ReturnFact(trace: Trace)
    | CallFact(callee: string)

  ghost function One(f: Fact): Effects {
    match f
    case FlowFact(x) => NOTHING.(flows := {x})
    case ArgumentFact(x) => NOTHING.(arguments := {x})
    case WriteFact(x) => NOTHING.(fieldWrites := {x})
    case ReadFact(x) => NOTHING.(fieldReads := {x})
    case ReturnFact(x) => NOTHING.(returned := {x})
    case CallFact(x) => NOTHING.(called := {x})
  }

  ghost predicate IsOne(e: Effects) {
    exists f :: e == One(f)
  }

  lemma OneIsNotNothing(one: Effects)
    requires IsOne(one)
    ensures !one.Within(NOTHING)
  {
    var f :| one == One(f);
    match f
    case FlowFact(x) => assert x in one.flows;
    case ArgumentFact(x) => assert x in one.arguments;
    case WriteFact(x) => assert x in one.fieldWrites;
    case ReadFact(x) => assert x in one.fieldReads;
    case ReturnFact(x) => assert x in one.returned;
    case CallFact(x) => assert x in one.called;
  }

  lemma OneInPlus(one: Effects, e: Effects, g: Effects)
    requires IsOne(one) && one.Within(e.Plus(g)) && !one.Within(g)
    ensures one.Within(e)
  {
    var f :| one == One(f);
  }

  /**
   Without guarded forms, and when the loop ended by itself, a fact is reported exactly when some
   path from the entry gives rise to it.
   */
  lemma ReportsExactlyPaths(p: Program, env: Env, initial: Registers, budget: nat, f: Fact)
    requires WellFormed(p) && Unguarded(p)
    requires Analysis(p, env, initial, budget).queue == []
    ensures One(f).Within(Analysis(p, env, initial, budget).found) <==>
            exists path :: IsPath(p, path) && One(f).Within(PathReport(p, env, initial, path))
  {
    var c := Analysis(p, env, initial, budget);
    AnalysisInvariant(p, env, initial, budget);
    AnalysisExplained(p, env, initial, budget);
    if One(f).Within(c.found) {
      ReportedBySomePath(p, env, initial, c, f);
    }
    forall path | IsPath(p, path) && One(f).Within(PathReport(p, env, initial, path)) ensures One(f).Within(c.found) {
      PathIsReported(p, env, initial, c, path);
    }
  }

  lemma ReportedBySomePath(p: Program, env: Env, initial: Registers, c: Config, f: Fact)
    requires FoundExplained(p, env, initial, c) && One(f).Within(c.found)
    ensures exists path :: IsPath(p, path) && One(f).Within(PathReport(p, env, initial, path))
  {
    var es :| AllReported(p, env, initial, es) && c.found == PlusAll(es);
    assert IsOne(One(f));
    var n := PlusAllHolds(es, One(f));
    assert Reported(p, env, initial, es[n]);
  }

  // ----- what is recorded can be read off the final states -----

  /** The final state of instruction i accounts for the fact: the instruction reports it from what is known there. */
  ghost predicate Held(p: Program, env: Env, c: Config, i: nat, f: Fact) {
    && i in c.states && i < |p.code|
    && One(f).Within(Report(p.code[i], Step(p.code[i], c.states[i], env).regs, env))
  }

  ghost predicate HeldSomewhere(p: Program, env: Env, c: Config, f: Fact) {
    exists i :: Held(p, env, c, i, f)
  }

  /** The calls that may report a flow to this sink, or an argument of this method. */
  predicate MayReport(op: Op, f: Fact) {
    match f
    case FlowFact(flow) => op.Invoke? && op.call.sink == Some(flow.sink)
    case ArgumentFact(argument) => op.Invoke? && op.call.target == argument.0
    case _ => false
  }

  /** No guarded constructor is itself a sink of the flow, or the method the argument is passed to. */
  predicate PlainReporters(p: Program, f: Fact) {
    forall i :: 0 <= i < |p.code| && Guarded(p.code[i].op) ==> !MayReport(p.code[i].op, f)
  }

  /** What an instruction reports from a state it reports from every larger one. */
  lemma HeldGrows(st: Statement, s: State, t: State, env: Env, f: Fact)
    requires Leq(s, t) && !(Guarded(st.op) && MayReport(st.op, f))
    requires One(f).Within(Report(st, Step(st, s, env).regs, env))
    ensures One(f).Within(Report(st, Step(st, t, env).regs, env))
  {
    if Guarded(st.op) {
      GuardedReports(st, Step(st, s, env).regs, Step(st, t, env).regs, env, f);
    } else {
      StepMonotone(st, s, t, env);
      LeqIsJoin(Step(st, s, env), Step(st, t, env));
      ReportDistributes(st, Step(st, s, env).regs, Step(st, t, env).regs, env);
    }
  }

  /** A guarded form reports nothing else that depends on the state. */
  lemma GuardedReports(st: Statement, a: Registers, b: Registers, env: Env, f: Fact)
    requires Guarded(st.op) && !MayReport(st.op, f)
    ensures One(f).Within(Report(st, a, env)) ==> One(f).Within(Report(st, b, env))
  {
    match f
    case FlowFact(x) => assert x in One(f).flows;
    case ArgumentFact(x) => assert x in One(f).arguments;
    case WriteFact(x) => assert x in One(f).fieldWrites;
    case ReadFact(x) => assert x in One(f).fieldReads;
    case ReturnFact(x) => assert x in One(f).returned;
    case CallFact(x) => assert x in One(f).called;
  }

  lemma AdvanceHolds(p: Program, env: Env, c: Config, f: Fact)
    requires Running(p, c) && c.queue != [] && PlainReporters(p, f)
    requires One(f).Within(c.found) ==> HeldSomewhere(p, env, c, f)
    requires One(f).Within(Advance(p, env, c).found)
    ensures HeldSomewhere(p, env, Advance(p, env, c), f)
  {
    var h := Head(p, c);
    var after := Step(p.code[h], c.states[h], env);
    var report := Report(p.code[h], after.regs, env);
    DeliverAllExtends(Config(c.states, c.queue[1..], c.found.Plus(report)), p.succs[h], after);
    var d := Advance(p, env, c);
    var i := h;
    if One(f).Within(c.found) {
      i :| Held(p, env, c, i, f);
    } else {
      assert IsOne(One(f));
      OneInPlus(One(f), report, c.found);
    }
    HeldGrows(p.code[i], c.states[i], d.states[i], env, f);
    assert Held(p, env, d, i, f);
  }

  /**
   Whatever guarded forms a method contains elsewhere and wherever the budget stopped it, every recorded
   fact is in the final state of an instruction that reports it.
   */
  lemma RecordedIsHeld(p: Program, env: Env, initial: Registers, budget: nat, f: Fact)
    requires WellFormed(p) && PlainReporters(p, f)
    requires One(f).Within(Analysis(p, env, initial, budget).found)
    ensures HeldSomewhere(p, env, Analysis(p, env, initial, budget), f)
  {
    assert IsOne(One(f));
    OneIsNotNothing(One(f));
    var P := (x: Config) => One(f).Within(x.found) ==> HeldSomewhere(p, env, x, f);
    forall x | Running(p, x) && x.queue != [] && P(x) ensures P(Advance(p, env, x)) {
      if One(f).Within(Advance(p, env, x).found) {
        AdvanceHolds(p, env, x, f);
      }
    }
    RunInduction(p, env, P, Start(initial), budget);
  }

  /** Once the loop has ended by itself, the recorded facts are exactly those the final states account for. */
  lemma RecordedExactlyHeld(p: Program, env: Env, initial: Registers, budget: nat, f: Fact)
    requires WellFormed(p) && PlainReporters(p, f)
    requires Analysis(p, env, initial, budget).queue == []
    ensures One(f).Within(Analysis(p, env, initial, budget).found)
        <==> HeldSomewhere(p, env, Analysis(p, env, initial, budget), f)
  {
    var c := Analysis(p, env, initial, budget);
    AnalysisInvariant(p, env, initial, budget);
    if One(f).Within(c.found) {
      RecordedIsHeld(p, env, initial, budget, f);
    }
    forall i | Held(p, env, c, i, f) ensures One(f).Within(c.found) {
      assert Settled(p, env, c, i);
    }
  }

  /** A call of the sink on the line of the flow with its register among the arguments. */
  predicate IsSinkCall(st: Statement, flow: Flow) {
    && st.op.Invoke? && st.line == flow.line
    && st.op.call.sink == Some(flow.sink) && flow.register in st.op.call.args
  }

  /** The flow itself: its trace is in the argument register after the update of a call of that sink. */
  lemma FlowIsInFinalState(p: Program, env: Env, initial: Registers, budget: nat, flow: Flow)
    requires WellFormed(p) && PlainReporters(p, FlowFact(flow))
    requires flow in Analysis(p, env, initial, budget).found.flows
    ensures var c := Analysis(p, env, initial, budget);
            exists i :: i in c.states && i < |p.code| && IsSinkCall(p.code[i], flow)
                        && flow.trace in Get(Step(p.code[i], c.states[i], env).regs, Reg(flow.register))
  {
    var c := Analysis(p, env, initial, budget);
    RecordedIsHeld(p, env, initial, budget, FlowFact(flow));
    var i: nat :| Held(p, env, c, i, FlowFact(flow));
    assert flow in One(FlowFact(flow)).flows;
    assert IsSinkCall(p.code[i], flow);
  }

  // ----- the loop itself -----

  /**
   The analysis of one method: what it reports, and whether the step budget stopped it. The loop
   computes exactly the specified run.
   */
  method AnalyzeLocalRegisterFlows(p: Program, env: Env, initial: Registers, budget: nat)
    returns (found: Effects, limited: bool, ghost final: Config)
    requires WellFormed(p)
    ensures found == Analysis(p, env, initial, budget).found
    ensures limited <==> Analysis(p, env, initial, budget).queue != []
    ensures final == Analysis(p, env, initial, budget)
  {
    var states: map<nat, State> := map[0 := State(initial, {})];
    var queue: seq<nat> := [0];
    found := NOTHING;
    var visited := 0;
    while queue != [] && visited < budget
      invariant visited <= budget
      invariant Running(p, Config(states, queue, found))
      invariant Run(p, env, Config(states, queue, found), budget - visited) == Analysis(p, env, initial, budget)
      decreases budget - visited
    {
      ghost var before := Config(states, queue, found);
      AdvanceRuns(p, env, before);
      var index := queue[0];
      assert index == Head(p, before);
      queue := queue[1..];
      visited := visited + 1;
      var after := Step(p.code[index], states[index], env);
      found := found.Plus(Report(p.code[index], after.regs, env));
      var targets := p.succs[index];
      var k := 0;
      while k < |targets|
        invariant 0 <= k <= |targets|
        invariant DeliverAll(Config(states, queue, found), targets[k..], after) == Advance(p, env, before)
      {
        var successor := targets[k];
        assert targets[k..][1..] == targets[k + 1..];
        if successor !in states {
          states := states[successor := after];
          queue := queue + [successor];
        } else {
          var merged := JoinStates(states[successor], after);
          if merged != states[successor] {
            states := states[successor := merged];
            queue := queue + [successor];
          }
        }
        k := k + 1;
      }
      assert targets[k..] == [];
    }
    final := Config(states, queue, found);
    limited := queue != [];
  }

  // ----- what the result depends on -----

  /** The two summary tables agree on everything that was looked up. */
  ghost predicate AgreeOn(env: Env, env': Env, looked: Effects) {
    && env' == env.(fields := env'.fields, returnTaints := env'.returnTaints)
    && (forall f :: f in looked.fieldReads ==> Summaries(env'.fields, f) == Summaries(env.fields, f))
    && (forall m :: m in looked.called ==> Summaries(env'.returnTaints, m) == Summaries(env.returnTaints, m))
  }

  lemma StepDependsOn(st: Statement, s: State, env: Env, env': Env)
    requires AgreeOn(env, env', Report(st, Step(st, s, env).regs, env))
    ensures Step(st, s, env') == Step(st, s, env)
    ensures Report(st, Step(st, s, env).regs, env') == Report(st, Step(st, s, env).regs, env)
  {
  }

  lemma AdvanceFinds(p: Program, env: Env, c: Config)
    requires Running(p, c) && c.queue != []
    ensures var h := Head(p, c);
            Advance(p, env, c).found == c.found.Plus(Report(p.code[h], Step(p.code[h], c.states[h], env).regs, env))
  {
    var h := Head(p, c);
    var after := Step(p.code[h], c.states[h], env);
    DeliverAllExtends(Config(c.states, c.queue[1..], c.found.Plus(Report(p.code[h], after.regs, env))), p.succs[h],
                      after);
  }

  lemma AdvanceDependsOn(p: Program, env: Env, env': Env, c: Config, looked: Effects)
    requires Running(p, c) && c.queue != []
    requires Advance(p, env, c).found.Within(looked) && AgreeOn(env, env', looked)
    ensures Advance(p, env', c) == Advance(p, env, c)
  {
    var h := Head(p, c);
    AdvanceFinds(p, env, c);
    StepDependsOn(p.code[h], c.states[h], env, env');
  }

  /**
   The run of a method depends only on the fields it reported reading and the return summaries of
   the methods it reported calling: with other tables that agree there, it is the same run.
   */
  lemma RunDependsOn(p: Program, env: Env, env': Env, c: Config, steps: nat, looked: Effects)
    requires Running(p, c)
    requires Run(p, env, c, steps).found.Within(looked) && AgreeOn(env, env', looked)
    ensures Run(p, env', c, steps) == Run(p, env, c, steps)
  {
    var step, step' := Round(p, env), Round(p, env');
    var P := (x: Config) => x.found.Within(looked);
    forall x | P(step(x)) ensures P(x) && step'(x) == step(x) {
      if Running(p, x) && x.queue != [] {
        AdvanceFinds(p, env, x);
        AdvanceDependsOn(p, env, env', x, looked);
      }
    }
    RunIsIterate(p, env, c, steps);
    RunIsIterate(p, env', c, steps);
    IterateSame(step, step', P, c, steps);
  }
}
