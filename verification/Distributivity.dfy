/**
 Which instructions distribute over the join of states. All of them do except four guarded forms,
 and each of those is not even monotone.
 */
module Distributivity {
  import opened Wrappers
  import opened Descriptors
  import opened RegisterState
  import opened Transfer

  /**
   The forms whose update depends on the absence of something: an array read that falls back to the
   array register, and three kinds of constructor that overwrite only when they have something to
   write. In degenerate operands (reading an array into its own register, or passing the receiver
   to its own constructor) the guard has no effect.
   */
  predicate Guarded(op: Op) {
    match op
    case ArrayGet(dest, base, _) => dest != base
    case Invoke(c) =>
      (match c.summary
       case PathStreamConstructor => |c.args| > 1 && c.args[0] !in c.args[1..]
       case WrapperConstructor => |c.args| > 1 && c.args[0] !in c.args[1..]
       case BuilderConstructor => |c.args| > 1
       case _ => false)
    case _ => false
  }

  lemma ClearHighJoins(a: Registers, b: Registers, dest: Register, wide: bool)
    ensures ClearHigh(Join(a, b), dest, wide) == Join(ClearHigh(a, dest, wide), ClearHigh(b, dest, wide))
  {
    JoinDrop(a, b, Tracked(High(dest)));
  }

  lemma SetPlainJoins(a: Registers, b: Registers, dest: Register, t: Traces, u: Traces, wide: bool)
    ensures SetPlain(Join(a, b), dest, t + u, wide) == Join(SetPlain(a, dest, t, wide), SetPlain(b, dest, u, wide))
  {
    var ks := {ArrayOf(dest), BuilderOf(dest), ReturnedIn(dest)};
    JoinDrop(a, b, ks);
    JoinPut(a - ks, b - ks, Reg(dest), t, u);
    ClearHighJoins(Put(a - ks, Reg(dest), t), Put(b - ks, Reg(dest), u), dest, wide);
  }

  lemma MoveResultJoins(s: State, t: State, dest: Register, wide: bool)
    ensures AfterMoveResult(JoinStates(s, t), dest, wide) == Join(AfterMoveResult(s, dest, wide),
                                                                  AfterMoveResult(t, dest, wide))
  {
    var ks := {ArrayOf(dest), BuilderOf(dest), ReturnedIn(dest)};
    var a, b := s.regs, t.regs;
    JoinDrop(a, b, ks);
    JoinDrop(a - ks, b - ks, PENDINGS);
    JoinGet(a, b, PendingArray);
    JoinGet(a, b, PendingReturn);
    JoinGet(a, b, PendingBuilder);
    var a1, b1 := Put(a - ks - PENDINGS, Reg(dest), s.pending), Put(b - ks - PENDINGS, Reg(dest), t.pending);
    JoinPut(a - ks - PENDINGS, b - ks - PENDINGS, Reg(dest), s.pending, t.pending);
    var a2, b2 := Put(a1, ArrayOf(dest), Get(a, PendingArray)), Put(b1, ArrayOf(dest), Get(b, PendingArray));
    JoinPut(a1, b1, ArrayOf(dest), Get(a, PendingArray), Get(b, PendingArray));
    var a3, b3 := Put(a2, ReturnedIn(dest), Get(a, PendingReturn)), Put(b2, ReturnedIn(dest), Get(b, PendingReturn));
    JoinPut(a2, b2, ReturnedIn(dest), Get(a, PendingReturn), Get(b, PendingReturn));
    JoinPut(a3, b3, BuilderOf(dest), Get(a, PendingBuilder), Get(b, PendingBuilder));
    ClearHighJoins(Put(a3, BuilderOf(dest), Get(a, PendingBuilder)),
                   Put(b3, BuilderOf(dest), Get(b, PendingBuilder)), dest, wide);
  }

  lemma CopyIfObjectJoins(a: Registers, b: Registers, from: Key, to: Key, form: MoveForm)
    ensures CopyIfObject(Join(a, b), from, to, form) == Join(CopyIfObject(a, from, to, form),
                                                             CopyIfObject(b, from, to, form))
  {
    JoinCopy(a, b, from, to);
    JoinDrop(a, b, {to});
  }

  lemma MoveTracesJoin(a: Registers, b: Registers, src: Register, form: MoveForm)
    ensures MoveTraces(Join(a, b), src, form) == MoveTraces(a, src, form) + MoveTraces(b, src, form)
  {
    JoinGet(a, b, Reg(src));
    JoinGet(a, b, Reg(High(src)));
  }

  lemma MoveJoins(a: Registers, b: Registers, dest: Register, src: Register, form: MoveForm)
    ensures AfterMove(Join(a, b), dest, src, form) == Join(AfterMove(a, dest, src, form), AfterMove(b, dest, src, form))
  {
    MoveTracesJoin(a, b, src, form);
    var t, u := MoveTraces(a, src, form), MoveTraces(b, src, form);
    var a1 := if form.Wide? then a - Tracked(dest) - Tracked(High(dest)) else a;
    var b1 := if form.Wide? then b - Tracked(dest) - Tracked(High(dest)) else b;
    JoinDrop(a, b, Tracked(dest));
    JoinDrop(a - Tracked(dest), b - Tracked(dest), Tracked(High(dest)));
    JoinPut(a1, b1, Reg(dest), t, u);
    ClearHighJoins(Put(a1, Reg(dest), t), Put(b1, Reg(dest), u), dest, form.Wide?);
    var a2, b2 := ClearHigh(Put(a1, Reg(dest), t), dest, form.Wide?),
        ClearHigh(Put(b1, Reg(dest), u), dest, form.Wide?);
    CopyIfObjectJoins(a2, b2, ArrayOf(src), ArrayOf(dest), form);
    var a3, b3 := CopyIfObject(a2, ArrayOf(src), ArrayOf(dest), form),
        CopyIfObject(b2, ArrayOf(src), ArrayOf(dest), form);
    CopyIfObjectJoins(a3, b3, BuilderOf(src), BuilderOf(dest), form);
    var a4, b4 := CopyIfObject(a3, BuilderOf(src), BuilderOf(dest), form),
        CopyIfObject(b3, BuilderOf(src), BuilderOf(dest), form);
    JoinCopy(a4, b4, ReturnedIn(src), ReturnedIn(dest));
  }

  /** Reading an array into its own register drops the element summary first, so the fallback is always taken. */
  lemma OwnArrayGet(m: Registers, dest: Register, wide: bool)
    ensures AfterArrayGet(m, dest, dest, wide) == SetPlain(m, dest, Get(m, Reg(dest)), wide)
  {
  }

  lemma WriteJoins(a: Registers, b: Registers, dest: Register, sources: seq<Register>, wide: bool)
    ensures AfterWrite(Join(a, b), dest, sources, wide) == Join(AfterWrite(a, dest, sources, wide),
                                                                AfterWrite(b, dest, sources, wide))
  {
    JoinGetAll(a, b, sources);
    JoinDrop(a, b, Tracked(dest));
    ClearHighJoins(a - Tracked(dest), b - Tracked(dest), dest, wide);
    JoinPut(ClearHigh(a - Tracked(dest), dest, wide), ClearHigh(b - Tracked(dest), dest, wide), Reg(dest),
            GetAll(a, sources), GetAll(b, sources));
  }

  lemma DeriveJoins(t: Traces, u: Traces, kind: string, line: int)
    ensures Derive(t + u, kind, line) == Derive(t, kind, line) + Derive(u, kind, line)
  {
  }

  lemma OnlyIfJoins(t: Traces, u: Traces, x: Trace)
    ensures OnlyIf(t + u, x) == OnlyIf(t, x) + OnlyIf(u, x)
  {
  }

  predicate IsConstructor(s: Summary) {
    s.PathStreamConstructor? || s.PathObjectConstructor? || s.WrapperConstructor? || s.BuilderConstructor?
  }

  /** A guarded overwrite that only ever repeats or extends what was there is harmless. */
  lemma JoinReplace(a: Registers, b: Registers, k: Key, t: Traces, u: Traces)
    requires t == {} ==> Get(a, k) == {}
    requires u == {} ==> Get(b, k) == {}
    ensures Replace(Join(a, b), k, t + u) == Join(Replace(a, k, t), Replace(b, k, u))
  {
    var left, right := Replace(Join(a, b), k, t + u), Join(Replace(a, k, t), Replace(b, k, u));
    assert left.Keys == right.Keys;
    forall j | j in left ensures Get(left, j) == Get(right, j) {
      JoinGet(a, b, j);
      JoinGet(Replace(a, k, t), Replace(b, k, u), j);
    }
    Pointwise(left, right);
  }

  lemma ReceiverAmongArguments(m: Registers, args: seq<Register>)
    requires args != [] && (|args| > 1 ==> args[0] in args[1..]) && |args| > 1
    ensures GetAll(m, args[1..]) == {} ==> Get(m, Reg(args[0])) == {}
  {
    forall t | t in Get(m, Reg(args[0])) ensures t in GetAll(m, args[1..]) {
      GetAllContains(m, args[1..], args[0], t);
    }
  }

  /** The two constructors that overwrite their receiver, when the guard cannot matter. */
  lemma ConstructorJoins(a: Registers, b: Registers, args: seq<Register>, t: Traces, u: Traces)
    requires |args| > 1 && args[0] in args[1..]
    requires t == {} <==> GetAll(a, args[1..]) == {}
    requires u == {} <==> GetAll(b, args[1..]) == {}
    ensures Replace(Join(a, b), Reg(args[0]), t + u) == Join(Replace(a, Reg(args[0]), t), Replace(b, Reg(args[0]), u))
  {
    ReceiverAmongArguments(a, args);
    ReceiverAmongArguments(b, args);
    JoinReplace(a, b, Reg(args[0]), t, u);
  }

  lemma GuardedConstructorJoins(a: Registers, b: Registers, c: Call, line: int, env: Env)
    requires !Guarded(Invoke(c)) && c.summary.WrapperConstructor? && |c.args| > 1
    ensures AfterSummary(Join(a, b), c, line, env) == JoinStates(AfterSummary(a, c, line, env),
                                                                 AfterSummary(b, c, line, env))
  {
    var t, u := GetAll(a, c.args[1..]), GetAll(b, c.args[1..]);
    JoinGetAll(a, b, c.args[1..]);
    ConstructorJoins(a, b, c.args, t, u);
  }

  lemma StreamConstructorJoins(a: Registers, b: Registers, c: Call, line: int, env: Env)
    requires !Guarded(Invoke(c)) && c.summary.PathStreamConstructor? && |c.args| > 1
    ensures AfterSummary(Join(a, b), c, line, env) == JoinStates(AfterSummary(a, c, line, env),
                                                                 AfterSummary(b, c, line, env))
  {
    var external := Trace(EXTERNAL, line, env.methodKey, env.file);
    var t, u := GetAll(a, c.args[1..]), GetAll(b, c.args[1..]);
    JoinGetAll(a, b, c.args[1..]);
    OnlyIfJoins(t, u, external);
    ConstructorJoins(a, b, c.args, OnlyIf(t, external), OnlyIf(u, external));
  }

  lemma SummaryConstructorJoins(a: Registers, b: Registers, c: Call, line: int, env: Env)
    requires !Guarded(Invoke(c)) && IsConstructor(c.summary) && c.args != []
    ensures AfterSummary(Join(a, b), c, line, env) == JoinStates(AfterSummary(a, c, line, env),
                                                                 AfterSummary(b, c, line, env))
  {
    if c.summary.PathObjectConstructor? {
      JoinGetAll(a, b, c.args[1..]);
      JoinPut(a, b, Reg(c.args[0]), GetAll(a, c.args[1..]), GetAll(b, c.args[1..]));
    } else if |c.args| <= 1 {
      LoneReceiver(a, c, line, env);
      LoneReceiver(b, c, line, env);
      LoneReceiver(Join(a, b), c, line, env);
    } else if c.summary.PathStreamConstructor? {
      StreamConstructorJoins(a, b, c, line, env);
    } else {
      GuardedConstructorJoins(a, b, c, line, env);
    }
  }

  lemma LoneReceiver(m: Registers, c: Call, line: int, env: Env)
    requires IsConstructor(c.summary) && !c.summary.PathObjectConstructor? && |c.args| <= 1
    ensures AfterSummary(m, c, line, env) == State(m, {})
  {
    assert c.args != [] ==> c.args[1..] == [];
  }

  lemma SummaryJoins(a: Registers, b: Registers, c: Call, line: int, env: Env)
    requires !Guarded(Invoke(c))
    ensures AfterSummary(Join(a, b), c, line, env) == JoinStates(AfterSummary(a, c, line, env),
                                                                 AfterSummary(b, c, line, env))
  {
    var args := c.args;
    var external := Trace(EXTERNAL, line, env.methodKey, env.file);
    if c.summary.NoSummary? || c.summary.Source? || args == [] {
      Unconditional(a, b, c, line, env);
    } else if IsConstructor(c.summary) {
      SummaryConstructorJoins(a, b, c, line, env);
    } else {
      JoinGet(a, b, Reg(args[0]));
      match c.summary
      case DerivedAs(kind) => DeriveJoins(Get(a, Reg(args[0])), Get(b, Reg(args[0])), kind, line);
      case Transform => JoinGetAll(a, b, args);
      case BuilderToString => JoinGet(a, b, BuilderOf(args[0]));
      case ExternalUri(i) => ExternalJoins(a, b, args, i, external);
      case ExternalPath(i, allBytes) => ExternalJoins(a, b, args, i, external);
      case FillsArray => if |args| > 1 { JoinAdd(a, b, ArrayOf(args[1]), Get(a, Reg(args[0])), Get(b, Reg(args[0]))); }
      case YieldsBytes => JoinPut(a, b, PendingArray, Get(a, Reg(args[0])), Get(b, Reg(args[0])));
      case BuilderMutator(returnsBuilder) => MutatorJoins(a, b, c, line, env);
      case _ =>
    }
  }

  lemma ExternalJoins(a: Registers, b: Registers, args: seq<Register>, i: nat, external: Trace)
    ensures var t, u := External(a, args, i, external), External(b, args, i, external);
            && External(Join(a, b), args, i, external) == t + u
            && Put(Join(a, b), PendingArray, t + u) == Join(Put(a, PendingArray, t), Put(b, PendingArray, u))
  {
    if i < |args| {
      JoinGet(a, b, Reg(args[i]));
      OnlyIfJoins(Get(a, Reg(args[i])), Get(b, Reg(args[i])), external);
    }
    JoinPut(a, b, PendingArray, External(a, args, i, external), External(b, args, i, external));
  }

  /** What an invocation yields without arguments, or without looking at them. */
  function FixedResult(c: Call, line: int, env: Env): Traces {
    if c.summary.Source? then {Trace(c.summary.kind, line, env.methodKey, env.file)} else {}
  }

  function FixedRegisters(m: Registers, c: Call): Registers {
    if c.summary.YieldsBytes? || (c.summary.ExternalPath? && c.summary.allBytes) then m - {PendingArray} else m
  }

  lemma Fixed(m: Registers, c: Call, line: int, env: Env)
    requires c.summary.NoSummary? || c.summary.Source? || c.args == []
    ensures AfterSummary(m, c, line, env) == State(FixedRegisters(m, c), FixedResult(c, line, env))
  {
    assert Put(m, PendingArray, {}) == m - {PendingArray};
  }

  lemma Unconditional(a: Registers, b: Registers, c: Call, line: int, env: Env)
    requires c.summary.NoSummary? || c.summary.Source? || c.args == []
    ensures AfterSummary(Join(a, b), c, line, env) == JoinStates(AfterSummary(a, c, line, env),
                                                                 AfterSummary(b, c, line, env))
  {
    Fixed(a, c, line, env);
    Fixed(b, c, line, env);
    Fixed(Join(a, b), c, line, env);
    JoinDrop(a, b, {PendingArray});
    assert FixedResult(c, line, env) + FixedResult(c, line, env) == FixedResult(c, line, env);
  }

  lemma MutatorJoins(a: Registers, b: Registers, c: Call, line: int, env: Env)
    requires c.summary.BuilderMutator? && c.args != []
    ensures AfterSummary(Join(a, b), c, line, env) == JoinStates(AfterSummary(a, c, line, env),
                                                                 AfterSummary(b, c, line, env))
  {
    var builder, rest := BuilderOf(c.args[0]), c.args[1..];
    JoinGet(a, b, builder);
    JoinGetAll(a, b, rest);
    JoinAdd(a, b, builder, GetAll(a, rest), GetAll(b, rest));
    var t, u := Get(a, builder) + GetAll(a, rest), Get(b, builder) + GetAll(b, rest);
    FourTraces(Get(a, builder), GetAll(a, rest), Get(b, builder), GetAll(b, rest));
    JoinPut(Add(a, builder, GetAll(a, rest)), Add(b, builder, GetAll(b, rest)), PendingBuilder, t, u);
  }

  lemma FourTraces(t: Traces, t': Traces, u: Traces, u': Traces)
    ensures t + u + (t' + u') == t + t' + (u + u')
  {
  }

  lemma InvokeJoins(a: Registers, b: Registers, c: Call, line: int, env: Env)
    requires !Guarded(Invoke(c))
    ensures AfterInvoke(Join(a, b), c, line, env) == JoinStates(AfterInvoke(a, c, line, env),
                                                                AfterInvoke(b, c, line, env))
  {
    SummaryJoins(a, b, c, line, env);
    var r := Summaries(env.returnTaints, c.target);
    assert r + r == r;
    JoinPut(AfterSummary(a, c, line, env).regs, AfterSummary(b, c, line, env).regs, PendingReturn, r, r);
  }

  lemma FieldJoins(a: Registers, b: Registers, dest: Register, t: Traces, wide: bool)
    ensures SetPlain(Join(a, b), dest, t, wide) == Join(SetPlain(a, dest, t, wide), SetPlain(b, dest, t, wide))
  {
    assert t + t == t;
    SetPlainJoins(a, b, dest, t, t, wide);
  }

  lemma OwnArrayGetJoins(a: Registers, b: Registers, dest: Register, wide: bool)
    ensures AfterArrayGet(Join(a, b), dest, dest, wide) == Join(AfterArrayGet(a, dest, dest, wide),
                                                                AfterArrayGet(b, dest, dest, wide))
  {
    OwnArrayGet(a, dest, wide);
    OwnArrayGet(b, dest, wide);
    OwnArrayGet(Join(a, b), dest, wide);
    JoinGet(a, b, Reg(dest));
    SetPlainJoins(a, b, dest, Get(a, Reg(dest)), Get(b, Reg(dest)), wide);
  }

  lemma FilledJoins(a: Registers, b: Registers, elements: seq<Register>)
    ensures Put(Join(a, b), PendingArray, GetAll(Join(a, b), elements))
         == Join(Put(a, PendingArray, GetAll(a, elements)), Put(b, PendingArray, GetAll(b, elements)))
  {
    JoinGetAll(a, b, elements);
    JoinPut(a, b, PendingArray, GetAll(a, elements), GetAll(b, elements));
  }

  lemma ArrayPutJoins(a: Registers, b: Registers, value: Register, base: Register)
    ensures Add(Join(a, b), ArrayOf(base), Get(Join(a, b), Reg(value)))
         == Join(Add(a, ArrayOf(base), Get(a, Reg(value))), Add(b, ArrayOf(base), Get(b, Reg(value))))
  {
    JoinGet(a, b, Reg(value));
    JoinAdd(a, b, ArrayOf(base), Get(a, Reg(value)), Get(b, Reg(value)));
  }

  lemma PlainStepDistributes(st: Statement, s: State, t: State, env: Env)
    requires !Guarded(st.op) && !st.op.Invoke? && !st.op.MoveResult?
    ensures Step(st, JoinStates(s, t), env) == JoinStates(Step(st, s, env), Step(st, t, env))
  {
    var a, b := s.regs - PENDINGS, t.regs - PENDINGS;
    JoinDrop(s.regs, t.regs, PENDINGS);
    match st.op
    case StaticGet(dest, field, wide) => FieldJoins(a, b, dest, Summaries(env.fields, field), wide);
    case Move(dest, src, form) => MoveJoins(a, b, dest, src, form);
    case ArrayGet(dest, base, wide) => OwnArrayGetJoins(a, b, dest, wide);
    case Write(dest, sources, wide) => WriteJoins(a, b, dest, sources, wide);
    case FillArrayData(base) => JoinDrop(a, b, {ArrayOf(base)});
    case FilledNewArray(elements) => FilledJoins(a, b, elements);
    case ArrayPut(value, base) => ArrayPutJoins(a, b, value, base);
    case _ =>
  }

  /** An unguarded instruction treats a join of states as the join of what it does to each. */
  lemma StepDistributes(st: Statement, s: State, t: State, env: Env)
    requires !Guarded(st.op)
    ensures Step(st, JoinStates(s, t), env) == JoinStates(Step(st, s, env), Step(st, t, env))
  {
    match st.op
    case MoveResult(dest, wide) => MoveResultJoins(s, t, dest, wide);
    case Invoke(c) =>
      JoinDrop(s.regs, t.regs, PENDINGS);
      InvokeJoins(s.regs - PENDINGS, t.regs - PENDINGS, c, st.line, env);
    case _ => PlainStepDistributes(st, s, t, env);
  }

  ghost predicate Monotone(st: Statement, env: Env) {
    forall s, t :: Leq(s, t) ==> Leq(Step(st, s, env), Step(st, t, env))
  }

  lemma StepMonotone(st: Statement, s: State, t: State, env: Env)
    requires !Guarded(st.op) && Leq(s, t)
    ensures Leq(Step(st, s, env), Step(st, t, env))
  {
    LeqIsJoin(s, t);
    StepDistributes(st, s, t, env);
    LeqIsJoin(Step(st, s, env), Step(st, t, env));
  }

  // ----- the guarded forms -----

  /** A larger state in which the array has a summary hides the traces of the array register. */
  lemma ArrayGetNotMonotone(st: Statement, env: Env)
    requires st.op.ArrayGet? && Guarded(st.op)
    ensures !Monotone(st, env)
  {
    var ArrayGet(dest, base, wide) := st.op;
    var x, y := Trace("X", 0, "", ""), Trace("Y", 0, "", "");
    var s := State(map[Reg(base) := {x}], {});
    var t := State(map[Reg(base) := {x}, ArrayOf(base) := {y}], {});
    assert Leq(s, t);
    assert Get(Step(st, s, env).regs, Reg(dest)) == {x};
    assert Get(Step(st, t, env).regs, Reg(dest)) == {y};
  }

  /** A larger state in which another argument is tainted loses what the receiver carried. */
  lemma ConstructorNotMonotone(st: Statement, env: Env)
    requires st.op.Invoke? && Guarded(st.op)
    ensures !Monotone(st, env)
  {
    var c := st.op.call;
    var x, y := Trace("X", 0, "", ""), Trace("Y", 0, "", "");
    var key := if c.summary.BuilderConstructor? then BuilderOf(c.args[0]) else Reg(c.args[0]);
    var small: Registers := map[key := {x}];
    var large: Registers := map[key := {x}, Reg(c.args[1]) := {y}];
    var s, t := State(small, {}), State(large, {});
    assert Leq(s, t);
    assert small - PENDINGS == small && large - PENDINGS == large;
    NothingFrom(small, c.args[1..]);
    OnlyFrom(large, c.args[1..], y);
    assert Get(Step(st, s, env).regs, key) == {x};
    assert x !in Get(Step(st, t, env).regs, key);
  }

  lemma {:induction false} NothingFrom(m: Registers, rs: seq<Register>)
    requires forall r :: r in rs ==> Reg(r) !in m
    ensures GetAll(m, rs) == {}
  {
    if rs != [] {
      NothingFrom(m, rs[1..]);
    }
  }

  lemma {:induction false} OnlyFrom(m: Registers, rs: seq<Register>, y: Trace)
    requires forall r :: r in rs ==> Get(m, Reg(r)) <= {y}
    ensures GetAll(m, rs) <= {y}
    ensures rs != [] && Get(m, Reg(rs[0])) == {y} ==> GetAll(m, rs) == {y}
  {
    if rs != [] {
      OnlyFrom(m, rs[1..], y);
    }
  }

  /** Exactly the guarded forms are not monotone. */
  lemma MonotoneExactlyUnguarded(st: Statement, env: Env)
    ensures Monotone(st, env) <==> !Guarded(st.op)
  {
    if Guarded(st.op) {
      if st.op.ArrayGet? {
        ArrayGetNotMonotone(st, env);
      } else {
        ConstructorNotMonotone(st, env);
      }
    } else {
      forall s, t | Leq(s, t) ensures Leq(Step(st, s, env), Step(st, t, env)) {
        StepMonotone(st, s, t, env);
      }
    }
  }

  // ----- reports -----

  lemma SinkFlowsJoin(a: Registers, b: Registers, args: seq<Register>, sink: string, line: int)
    ensures SinkFlows(args, sink, line, Join(a, b)) == SinkFlows(args, sink, line, a) + SinkFlows(args, sink, line, b)
  {
    forall r { JoinGet(a, b, Reg(r)); }
  }

  lemma ArgumentFlowsJoin(a: Registers, b: Registers, c: Call, isStatic: bool)
    ensures ArgumentFlows(c, isStatic, Join(a, b)) == ArgumentFlows(c, isStatic, a) + ArgumentFlows(c, isStatic, b)
  {
    forall r { JoinGet(a, b, Reg(r)); }
  }

  lemma WritesJoin(t: Traces, u: Traces, field: string)
    ensures (set x | x in t + u :: (field, x)) == (set x | x in t :: (field, x)) + (set x | x in u :: (field, x))
  {
  }

  lemma InvokeReportDistributes(st: Statement, a: Registers, b: Registers, env: Env)
    requires st.op.Invoke?
    ensures Report(st, Join(a, b), env) == Report(st, a, env).Plus(Report(st, b, env))
  {
    var c := st.op.call;
    if c.sink.Some? {
      SinkFlowsJoin(a, b, c.args, c.sink.value, st.line);
    }
    if c.target in env.methods {
      ArgumentFlowsJoin(a, b, c, env.methods[c.target]);
    }
  }

  /** What an instruction reports from a join is what it reports from each part. */
  lemma ReportDistributes(st: Statement, a: Registers, b: Registers, env: Env)
    ensures Report(st, Join(a, b), env) == Report(st, a, env).Plus(Report(st, b, env))
  {
    match st.op
    case StaticPut(value, field) => PutReportDistributes(st, a, b, env);
    case ReturnValue(value) => JoinGet(a, b, Reg(value));
    case Invoke(c) => InvokeReportDistributes(st, a, b, env);
    case _ => PlusSelf(Report(st, a, env));
  }

  lemma PutReportDistributes(st: Statement, a: Registers, b: Registers, env: Env)
    requires st.op.StaticPut?
    ensures Report(st, Join(a, b), env) == Report(st, a, env).Plus(Report(st, b, env))
  {
    var value := Reg(st.op.value);
    JoinGet(a, b, value);
    WritesJoin(Get(a, value), Get(b, value), st.op.field);
  }

  lemma PlusSelf(e: Effects)
    ensures e.Plus(e) == e
  {
  }

  // ----- several states at once -----

  function StepEach(st: Statement, ss: seq<State>, env: Env): seq<State> {
    seq(|ss|, k requires 0 <= k < |ss| => Step(st, ss[k], env))
  }

  function ReportEach(st: Statement, ss: seq<State>, env: Env): seq<Effects> {
    seq(|ss|, k requires 0 <= k < |ss| => Report(st, Step(st, ss[k], env).regs, env))
  }

  ghost function PlusAll(es: seq<Effects>): Effects {
    if es == [] then NOTHING else PlusAll(es[..|es| - 1]).Plus(es[|es| - 1])
  }

  lemma {:induction false} StepOverJoin(st: Statement, ss: seq<State>, env: Env)
    requires ss != [] && !Guarded(st.op)
    ensures Step(st, JoinAll(ss), env) == JoinAll(StepEach(st, ss, env))
    decreases |ss|
  {
    var front, last := ss[..|ss| - 1], ss[|ss| - 1];
    if front != [] {
      StepOverJoin(st, front, env);
      StepDistributes(st, JoinAll(front), last, env);
      StepEachSnoc(st, ss, front, last, env);
      JoinAllSnoc(StepEach(st, front, env), Step(st, last, env));
    }
  }

  lemma StepEachSnoc(st: Statement, ss: seq<State>, front: seq<State>, last: State, env: Env)
    requires ss == front + [last]
    ensures StepEach(st, ss, env) == StepEach(st, front, env) + [Step(st, last, env)]
  {
  }

  lemma PlusNothing(e: Effects)
    ensures e.Plus(NOTHING) == e == NOTHING.Plus(e)
  {
  }

  lemma PlusAssociative(e: Effects, f: Effects, g: Effects)
    ensures e.Plus(f).Plus(g) == e.Plus(f.Plus(g))
  {
  }

  lemma PlusAllSnoc(es: seq<Effects>, e: Effects)
    ensures PlusAll(es + [e]) == PlusAll(es).Plus(e)
  {
    assert (es + [e])[..|es|] == es;
  }

  lemma PlusAllLast(es: seq<Effects>, front: seq<Effects>, last: Effects)
    requires es == front + [last]
    ensures PlusAll(es) == PlusAll(front).Plus(last)
  {
    PlusAllSnoc(front, last);
  }

  lemma JoinedLast<T>(es: seq<T>, fs: seq<T>, front: seq<T>, last: T)
    requires fs == front + [last]
    ensures es + fs == es + front + [last]
  {
  }

  lemma {:induction false} PlusAllConcat(es: seq<Effects>, fs: seq<Effects>)
    ensures PlusAll(es + fs) == PlusAll(es).Plus(PlusAll(fs))
    decreases |fs|
  {
    if fs == [] {
      assert es + fs == es;
      PlusNothing(PlusAll(es));
    } else {
      var front, last := fs[..|fs| - 1], fs[|fs| - 1];
      PlusAllConcat(es, front);
      PlusAllLast(fs, front, last);
      JoinedLast(es, fs, front, last);
      PlusAllLast(es + fs, es + front, last);
      PlusAssociative(PlusAll(es), PlusAll(front), last);
    }
  }

  lemma {:induction false} ReportOverJoin(st: Statement, ss: seq<State>, env: Env)
    requires ss != [] && !Guarded(st.op)
    ensures Report(st, Step(st, JoinAll(ss), env).regs, env) == PlusAll(ReportEach(st, ss, env))
    decreases |ss|
  {
    var front, last := ss[..|ss| - 1], ss[|ss| - 1];
    var r := Report(st, Step(st, last, env).regs, env);
    assert ReportEach(st, ss, env) == ReportEach(st, front, env) + [r];
    PlusAllSnoc(ReportEach(st, front, env), r);
    if front == [] {
      PlusNothing(r);
    } else {
      ReportOverJoin(st, front, env);
      StepDistributes(st, JoinAll(front), last, env);
      ReportDistributes(st, Step(st, JoinAll(front), env).regs, Step(st, last, env).regs, env);
    }
  }
}
