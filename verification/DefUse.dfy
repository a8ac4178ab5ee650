/**
 Where a trace comes from. For every instruction: the slots it fills from nothing, the slots it
 leaves as they are, and the slots whose traces it passes on. One step carries exactly what these
 say, and a run of instructions exactly what the chains of such steps lead to.
 */
module DefUse {
  import opened Wrappers
  import opened Descriptors
  import opened RegisterState
  import opened Transfer
  import opened TransferFrame
  import opened Distributivity

  /** A place that holds traces: a key of the registers, or the result of the last invocation. */
  datatype Slot = In(key: Key) | Result

  function Contents(s: State, slot: Slot): Traces {
    match slot
    case In(k) => Get(s.regs, k)
    case Result => s.pending
  }

  function Of(rs: seq<Register>): set<Slot> {
    set r | r in rs :: In(Reg(r))
  }

  // ----- what fills a slot from nothing -----

  /** Calls whose framework summary decides the result even when the method is one of the package. */
  predicate DecidesResult(s: Summary) {
    match s
    case Source(_) => true
    case DerivedSame => true
    case DerivedAs(_) => true
    case Transform => true
    case BuilderToString => true
    case BuilderMutator(_) => true
    case _ => false
  }

  /** The result of the call is what the method of the package is known to return. */
  predicate ReturnsSummary(c: Call, env: Env) {
    c.target in env.methods && !DecidesResult(c.summary)
  }

  predicate Introduces(st: Statement, env: Env, to: Slot, t: Trace) {
    match st.op
    case StaticGet(dest, field, _) => to == In(Reg(dest)) && field in env.fields && t in env.fields[field]
    case Invoke(c) =>
      if ReturnsSummary(c, env) then
        && (to == Result || to == In(PendingReturn))
        && c.target in env.returnTaints && t in env.returnTaints[c.target]
      else
        c.summary.Source? && to == Result && t == Trace(c.summary.kind, st.line, env.methodKey, env.file)
    case _ => false
  }

  // ----- what is left as it is -----

  /** A register and what is kept beside it, or of a wide pair also the high word. */
  predicate About(k: Key, r: Register, wide: bool) {
    && !Pending(k)
    && (k.r == r || (wide && k.r == Register(r.bank, r.index + 1)))
  }

  predicate Pending(k: Key) {
    k.PendingReturn? || k.PendingBuilder? || k.PendingArray?
  }

  /** The keys whose old traces are gone whatever the state. */
  predicate Erases(op: Op, k: Key) {
    match op
    case StaticGet(dest, _, wide) => About(k, dest, wide)
    case MoveResult(dest, wide) => About(k, dest, wide)
    case Move(dest, _, form) => About(k, dest, form.Wide?)
    case ArrayGet(dest, _, wide) => About(k, dest, wide)
    case Write(dest, _, wide) => About(k, dest, wide)
    case FillArrayData(base) => k == ArrayOf(base)
    case Invoke(c) =>
      && c.args != [] && k == Reg(c.args[0])
      && (c.summary.PathObjectConstructor?
          || ((c.summary.PathStreamConstructor? || c.summary.WrapperConstructor?) && c.args[0] in c.args[1..]))
    case _ => false
  }

  /** A pending result is never left: it is moved by the next instruction or lost. */
  predicate Leaves(op: Op, slot: Slot) {
    slot.In? && !Pending(slot.key) && !Erases(op, slot.key)
  }

  // ----- what is passed on -----

  /** The slots whose traces reach the given one. */
  function Uses(op: Op, env: Env, to: Slot): set<Slot> {
    match op
    case MoveResult(dest, _) =>
      if to == In(Reg(dest)) then {Result}
      else if to == In(ArrayOf(dest)) then {In(PendingArray)}
      else if to == In(BuilderOf(dest)) then {In(PendingBuilder)}
      else if to == In(ReturnedIn(dest)) then {In(PendingReturn)}
      else {}
    case Move(dest, src, form) =>
      if to == In(Reg(dest)) then {In(Reg(src))} + if form.Wide? then {In(Reg(Register(src.bank, src.index + 1)))}
          else {}
      else if to == In(ArrayOf(dest)) && form.Object? then {In(ArrayOf(src))}
      else if to == In(BuilderOf(dest)) && form.Object? then {In(BuilderOf(src))}
      else if to == In(ReturnedIn(dest)) && !(form.Wide? && src in {dest, Register(dest.bank, dest.index + 1)})
          then {In(ReturnedIn(src))}
      else {}
    case ArrayGet(dest, base, _) =>
      if to == In(Reg(dest)) then {In(Reg(base))} + if base != dest then {In(ArrayOf(base))} else {} else {}
    case Write(dest, sources, _) => if to == In(Reg(dest)) then Of(sources) else {}
    case FilledNewArray(elements) => if to == In(PendingArray) then Of(elements) else {}
    case ArrayPut(value, base) => if to == In(ArrayOf(base)) then {In(Reg(value))} else {}
    case Invoke(c) => if to == Result && ReturnsSummary(c, env) then {} else UsesOfCall(c, to)
    case _ => {}
  }

  function UsesOfCall(c: Call, to: Slot): set<Slot> {
    if c.args == [] then {} else
    var first, others := In(Reg(c.args[0])), Of(c.args[1..]);
    match c.summary
    case DerivedSame => if to == Result then {first} else {}
    case DerivedAs(_) => if to == Result then {first} else {}
    case StreamAccessor => if to == Result then {first} else {}
    case YieldsContent => if to == Result then {first} else {}
    case YieldsBytes => if to == Result || to == In(PendingArray) then {first} else {}
    case Transform => if to == Result then {first} + others else {}
    case BuilderToString => if to == Result then {In(BuilderOf(c.args[0]))} else {}
    case ExternalUri(i) => if to == Result && i < |c.args| then {In(Reg(c.args[i]))} else {}
    case ExternalPath(i, allBytes) =>
      if (to == Result || (allBytes && to == In(PendingArray))) && i < |c.args| then {In(Reg(c.args[i]))} else {}
    case PathStreamConstructor => if to == first then others else {}
    case PathObjectConstructor => if to == first then others else {}
    case WrapperConstructor => if to == first then others else {}
    case FillsArray => if |c.args| > 1 && to == In(ArrayOf(c.args[1])) then {first} else {}
    case BuilderConstructor => if to == In(BuilderOf(c.args[0])) then others else {}
    case BuilderMutator(returnsBuilder) =>
      if to == In(BuilderOf(c.args[0])) then others
      else if returnsBuilder && to == In(PendingBuilder) then others + {In(BuilderOf(c.args[0]))}
      else {}
    case _ => {}
  }

  /** What a trace becomes on the way: a derived source keeps where it came from, external content is new. */
  function Becomes(st: Statement, env: Env, t: Trace): Trace {
    if !st.op.Invoke? then t else
    match st.op.call.summary
    case DerivedAs(kind) => Trace(kind, st.line, t.methodKey, t.file)
    case ExternalUri(_) => Trace("EXTERNAL_FILE_CONTENT_CANDIDATE", st.line, env.methodKey, env.file)
    case ExternalPath(_, _) => Trace("EXTERNAL_FILE_CONTENT_CANDIDATE", st.line, env.methodKey, env.file)
    case PathStreamConstructor => Trace("EXTERNAL_FILE_CONTENT_CANDIDATE", st.line, env.methodKey, env.file)
    case _ => t
  }

  datatype Link = Link(slot: Slot, trace: Trace)

  /** A trace in a slot before the instruction is why there is one in a slot after it. */
  predicate Edge(st: Statement, env: Env, a: Link, b: Link) {
    || (a == b && Leaves(st.op, a.slot))
    || (a.slot in Uses(st.op, env, b.slot) && b.trace == Becomes(st, env, a.trace))
  }

  /** The edges that something else may take the place of: a fallback, and what a receiver carried before. */
  predicate Hideable(op: Op, a: Slot, b: Slot) {
    match op
    case ArrayGet(dest, base, _) => base != dest && a == In(Reg(base)) && b == In(Reg(dest))
    case Invoke(c) => a == b && Receiver(c) == Some(a)
    case _ => false
  }

  /**
   What takes their place: an element summary that of the array register, and what the arguments of a
   constructor carry that of what its receiver carried.
   */
  predicate Hidden(op: Op, s: State, a: Slot, b: Slot) {
    && Hideable(op, a, b)
    && match op
       case ArrayGet(dest, base, _) => ArrayOf(base) in s.regs
       case Invoke(c) => exists r :: r in c.args[1..] && Carries(s, r)
       case _ => false
  }

  predicate Carries(s: State, r: Register) {
    Get(s.regs, Reg(r)) != {}
  }

  /** The slot a constructor overwrites only if it has something to write. */
  function Receiver(c: Call): (slot: Option<Slot>)
    ensures slot.Some? ==> |c.args| > 1
  {
    if |c.args| <= 1 then None else
    match c.summary
    case PathStreamConstructor => if c.args[0] in c.args[1..] then None else Some(In(Reg(c.args[0])))
    case WrapperConstructor => if c.args[0] in c.args[1..] then None else Some(In(Reg(c.args[0])))
    case BuilderConstructor => Some(In(BuilderOf(c.args[0])))
    case _ => None
  }

  ghost predicate Comes(st: Statement, s: State, env: Env, a: Link, b: Link) {
    a.trace in Contents(s, a.slot) && Edge(st, env, a, b) && !Hidden(st.op, s, a.slot, b.slot)
  }

  // ----- one step -----

  lemma {:induction false} GetAllExactly(m: Registers, rs: seq<Register>, t: Trace)
    ensures t in GetAll(m, rs) <==> exists r :: r in rs && t in Get(m, Reg(r))
  {
    if rs != [] {
      GetAllExactly(m, rs[1..], t);
      assert rs == [rs[0]] + rs[1..];
      if t in Get(m, Reg(rs[0])) {
        assert rs[0] in rs;
      } else if r :| r in rs && t in Get(m, Reg(r)) {
        assert r in rs[1..];
      }
    }
  }

  /** The trace is in the slot after the instruction because it was introduced there or came along an edge. */
  ghost predicate Arrived(st: Statement, s: State, env: Env, b: Link) {
    Introduces(st, env, b.slot, b.trace) || exists a :: Comes(st, s, env, a, b)
  }

  lemma FromAny(m: Registers, rs: seq<Register>, t: Trace) returns (slot: Slot)
    requires t in GetAll(m, rs)
    ensures slot in Of(rs) && slot.In? && t in Get(m, slot.key)
  {
    GetAllExactly(m, rs, t);
    var r :| r in rs && t in Get(m, Reg(r));
    slot := In(Reg(r));
  }

  lemma ToAll(m: Registers, rs: seq<Register>, t: Trace, slot: Slot)
    requires slot in Of(rs) && slot.In? && t in Get(m, slot.key)
    ensures t in GetAll(m, rs)
  {
    GetAllExactly(m, rs, t);
  }

  lemma MoveResultOrigin(st: Statement, s: State, env: Env, b: Link)
    requires st.op.MoveResult? && b.trace in Contents(Step(st, s, env), b.slot)
    ensures Arrived(st, s, env, b)
  {
    var dest := st.op.dest;
    var from := b.slot;
    if b.slot == In(Reg(dest)) {
      from := Result;
    } else if b.slot == In(ArrayOf(dest)) {
      from := In(PendingArray);
    } else if b.slot == In(BuilderOf(dest)) {
      from := In(PendingBuilder);
    } else if b.slot == In(ReturnedIn(dest)) {
      from := In(PendingReturn);
    }
    assert Comes(st, s, env, Link(from, b.trace), b);
  }

  lemma MoveResultExactly(st: Statement, s: State, env: Env, b: Link)
    requires st.op.MoveResult?
    ensures b.trace in Contents(Step(st, s, env), b.slot) <==> Arrived(st, s, env, b)
  {
    if b.trace in Contents(Step(st, s, env), b.slot) {
      MoveResultOrigin(st, s, env, b);
    }
    forall a | Comes(st, s, env, a, b) ensures b.trace in Contents(Step(st, s, env), b.slot) {
      if Leaves(st.op, b.slot) {
        StepFrame(st, s, env, b.slot.key);
      }
    }
  }

  lemma MoveOrigin(st: Statement, s: State, env: Env, b: Link)
    requires st.op.Move? && b.trace in Contents(Step(st, s, env), b.slot)
    ensures Arrived(st, s, env, b)
  {
    var Move(dest, src, form) := st.op;
    var from := b.slot;
    if b.slot == In(Reg(dest)) {
      from := In(Reg(if b.trace in Get(s.regs, Reg(src)) then src else High(src)));
    } else if b.slot == In(ArrayOf(dest)) {
      from := In(ArrayOf(src));
    } else if b.slot == In(BuilderOf(dest)) {
      from := In(BuilderOf(src));
    } else if b.slot == In(ReturnedIn(dest)) {
      from := In(ReturnedIn(src));
    }
    assert Comes(st, s, env, Link(from, b.trace), b);
  }

  lemma MoveCarries(st: Statement, s: State, env: Env, a: Link, b: Link)
    requires st.op.Move? && Comes(st, s, env, a, b)
    ensures b.trace in Contents(Step(st, s, env), b.slot)
  {
    var Move(dest, src, form) := st.op;
    if Leaves(st.op, b.slot) {
      MoveFrame(s.regs - PENDINGS, dest, src, form, b.slot.key);
    } else if form.Wide? {
      WideMoveCarries(st, s, env, a, b);
    }
  }

  lemma WideMoveCarries(st: Statement, s: State, env: Env, a: Link, b: Link)
    requires st.op.Move? && st.op.form.Wide? && !Leaves(st.op, b.slot) && Comes(st, s, env, a, b)
    ensures b.trace in Contents(Step(st, s, env), b.slot)
  {
  }

  lemma MoveExactly(st: Statement, s: State, env: Env, b: Link)
    requires st.op.Move?
    ensures b.trace in Contents(Step(st, s, env), b.slot) <==> Arrived(st, s, env, b)
  {
    if b.trace in Contents(Step(st, s, env), b.slot) {
      MoveOrigin(st, s, env, b);
    }
    forall a | Comes(st, s, env, a, b) ensures b.trace in Contents(Step(st, s, env), b.slot) {
      MoveCarries(st, s, env, a, b);
    }
  }

  lemma ArrayGetExactly(st: Statement, s: State, env: Env, b: Link)
    requires st.op.ArrayGet?
    ensures b.trace in Contents(Step(st, s, env), b.slot) <==> Arrived(st, s, env, b)
  {
    var ArrayGet(dest, base, wide) := st.op;
    if b.trace in Contents(Step(st, s, env), b.slot) {
      var from := b.slot;
      if b.slot == In(Reg(dest)) {
        from := In(if base != dest && ArrayOf(base) in s.regs then ArrayOf(base) else Reg(base));
      }
      assert Comes(st, s, env, Link(from, b.trace), b);
    }
  }

  lemma WriteExactly(st: Statement, s: State, env: Env, b: Link)
    requires st.op.Write?
    ensures b.trace in Contents(Step(st, s, env), b.slot) <==> Arrived(st, s, env, b)
  {
    var Write(dest, sources, wide) := st.op;
    var m := s.regs - PENDINGS;
    if b.trace in Contents(Step(st, s, env), b.slot) {
      var from := b.slot;
      if b.slot == In(Reg(dest)) {
        from := FromAny(m, sources, b.trace);
      }
      assert Comes(st, s, env, Link(from, b.trace), b);
    }
    forall a | Comes(st, s, env, a, b) ensures b.trace in Contents(Step(st, s, env), b.slot) {
      if b.slot == In(Reg(dest)) {
        ToAll(m, sources, b.trace, a.slot);
      }
    }
  }

  lemma OtherExactly(st: Statement, s: State, env: Env, b: Link)
    requires st.op.StaticGet? || st.op.FillArrayData? || st.op.StaticPut? || st.op.ReturnValue? || st.op.Other?
    ensures b.trace in Contents(Step(st, s, env), b.slot) <==> Arrived(st, s, env, b)
  {
    if b.trace in Contents(Step(st, s, env), b.slot) && !Introduces(st, env, b.slot, b.trace) {
      assert Comes(st, s, env, b, b);
    }
  }

  lemma ArrayMadeExactly(st: Statement, s: State, env: Env, b: Link)
    requires st.op.FilledNewArray?
    ensures b.trace in Contents(Step(st, s, env), b.slot) <==> Arrived(st, s, env, b)
  {
    var m := s.regs - PENDINGS;
    if b.trace in Contents(Step(st, s, env), b.slot) {
      var from := b.slot;
      if b.slot == In(PendingArray) {
        from := FromAny(m, st.op.elements, b.trace);
      }
      assert Comes(st, s, env, Link(from, b.trace), b);
    }
    forall a | Comes(st, s, env, a, b) ensures b.trace in Contents(Step(st, s, env), b.slot) {
      if b.slot == In(PendingArray) {
        ToAll(m, st.op.elements, b.trace, a.slot);
      }
    }
  }

  lemma ArrayPutExactly(st: Statement, s: State, env: Env, b: Link)
    requires st.op.ArrayPut?
    ensures b.trace in Contents(Step(st, s, env), b.slot) <==> Arrived(st, s, env, b)
  {
    var ArrayPut(value, base) := st.op;
    if b.trace in Contents(Step(st, s, env), b.slot) {
      if !(b.trace in Contents(s, b.slot) && Leaves(st.op, b.slot)) {
        assert Comes(st, s, env, Link(In(Reg(value)), b.trace), b);
      } else {
        assert Comes(st, s, env, b, b);
      }
    }
  }

  // ----- one step: invocations -----

  /** What the framework summary alone makes of the state. */
  ghost function Summarised(st: Statement, s: State, env: Env): State
    requires st.op.Invoke?
  {
    AfterSummary(s.regs - PENDINGS, st.op.call, st.line, env)
  }

  /** The slots that are not replaced by the return summary of a method of the package. */
  ghost predicate Decided(st: Statement, env: Env, slot: Slot)
    requires st.op.Invoke?
  {
    ReturnsSummary(st.op.call, env) ==> slot != Result && slot != In(PendingReturn)
  }

  lemma ResultExactly(st: Statement, s: State, env: Env, b: Link)
    requires st.op.Invoke? && Decided(st, env, b.slot)
    requires var f := st.op.call.summary; f.NoSummary? || f.DerivedSame? || f.DerivedAs?
                                          || f.StreamAccessor? || f.YieldsContent? || f.BuilderToString?
    ensures b.trace in Contents(Summarised(st, s, env), b.slot) <==> Arrived(st, s, env, b)
  {
    var c, m := st.op.call, s.regs - PENDINGS;
    if b.trace in Contents(Summarised(st, s, env), b.slot) {
      var a := b;
      if b.slot == Result {
        a := Link(In(if c.summary.BuilderToString? then BuilderOf(c.args[0]) else Reg(c.args[0])), b.trace);
        if c.summary.DerivedAs? {
          var t :| t in Get(m, Reg(c.args[0])) && b.trace == Trace(c.summary.derivedKind, st.line, t.methodKey, t.file);
          a := Link(In(Reg(c.args[0])), t);
        }
      }
      assert Comes(st, s, env, a, b);
    }
  }

  lemma SourceExactly(st: Statement, s: State, env: Env, b: Link)
    requires st.op.Invoke? && Decided(st, env, b.slot) && st.op.call.summary.Source?
    ensures b.trace in Contents(Summarised(st, s, env), b.slot) <==> Arrived(st, s, env, b)
  {
    if b.trace in Contents(Summarised(st, s, env), b.slot) && b.slot != Result {
      assert Comes(st, s, env, b, b);
    }
  }

  lemma TransformExactly(st: Statement, s: State, env: Env, b: Link)
    requires st.op.Invoke? && Decided(st, env, b.slot) && st.op.call.summary.Transform?
    ensures b.trace in Contents(Summarised(st, s, env), b.slot) <==> Arrived(st, s, env, b)
  {
    var m, args := s.regs - PENDINGS, st.op.call.args;
    if args != [] { FirstAndOthers(args); }
    if b.trace in Contents(Summarised(st, s, env), b.slot) {
      var from := b.slot;
      if b.slot == Result {
        from := FromAny(m, args, b.trace);
      }
      assert Comes(st, s, env, Link(from, b.trace), b);
    }
    forall a | Comes(st, s, env, a, b) ensures b.trace in Contents(Summarised(st, s, env), b.slot) {
      if b.slot == Result {
        ToAll(m, args, b.trace, a.slot);
      }
    }
  }

  lemma FirstAndOthers(rs: seq<Register>)
    requires rs != []
    ensures Of(rs) == {In(Reg(rs[0]))} + Of(rs[1..])
  {
    assert rs == [rs[0]] + rs[1..];
  }

  lemma ExternalExactly(st: Statement, s: State, env: Env, b: Link)
    requires st.op.Invoke? && Decided(st, env, b.slot)
    requires st.op.call.summary.ExternalUri? || st.op.call.summary.ExternalPath?
    ensures b.trace in Contents(Summarised(st, s, env), b.slot) <==> Arrived(st, s, env, b)
  {
    var c, m := st.op.call, s.regs - PENDINGS;
    if b.trace in Contents(Summarised(st, s, env), b.slot) {
      var a := b;
      if b.slot == Result || b.slot == In(PendingArray) {
        var i := if c.summary.ExternalUri? then c.summary.index else c.summary.pathIndex;
        assert Get(m, Reg(c.args[i])) != {};
        var t :| t in Get(m, Reg(c.args[i]));
        a := Link(In(Reg(c.args[i])), t);
      }
      assert Comes(st, s, env, a, b);
    }
  }

  lemma CarriesAny(s: State, rs: seq<Register>)
    ensures GetAll(s.regs - PENDINGS, rs) != {} <==> exists r :: r in rs && Carries(s, r)
  {
    var m := s.regs - PENDINGS;
    if GetAll(m, rs) != {} {
      var t :| t in GetAll(m, rs);
      GetAllExactly(m, rs, t);
      var r :| r in rs && t in Get(m, Reg(r));
      assert Carries(s, r);
    }
    if r :| r in rs && Carries(s, r) {
      var t :| t in Get(s.regs, Reg(r));
      GetAllExactly(m, rs, t);
      assert t in Get(m, Reg(r));
    }
  }

  lemma PathStreamExactly(st: Statement, s: State, env: Env, b: Link)
    requires st.op.Invoke? && Decided(st, env, b.slot) && st.op.call.summary.PathStreamConstructor?
    ensures b.trace in Contents(Summarised(st, s, env), b.slot) <==> Arrived(st, s, env, b)
  {
    var args := st.op.call.args;
    if args != [] {
      var m, receiver := s.regs - PENDINGS, In(Reg(args[0]));
      CarriesAny(s, args[1..]);
      if b.trace in Contents(Summarised(st, s, env), b.slot) {
        var a := b;
        if b.slot == receiver && GetAll(m, args[1..]) != {} {
          var t :| t in GetAll(m, args[1..]);
          var from := FromAny(m, args[1..], t);
          a := Link(from, t);
        }
        assert Comes(st, s, env, a, b);
      }
      forall a | Comes(st, s, env, a, b) ensures b.trace in Contents(Summarised(st, s, env), b.slot) {
        if b.slot == receiver && a.slot in Of(args[1..]) {
          ToAll(m, args[1..], a.trace, a.slot);
        }
      }
    } else if b.trace in Contents(Summarised(st, s, env), b.slot) {
      assert Comes(st, s, env, b, b);
    }
  }

  lemma ConstructorOrigin(st: Statement, s: State, env: Env, b: Link)
    requires st.op.Invoke? && Decided(st, env, b.slot) && st.op.call.args != []
    requires var f := st.op.call.summary; f.PathObjectConstructor? || f.WrapperConstructor? || f.BuilderConstructor?
    requires b.trace in Contents(Summarised(st, s, env), b.slot)
    ensures Arrived(st, s, env, b)
  {
    var c, m := st.op.call, s.regs - PENDINGS;
    var others := c.args[1..];
    var receiver := In(if c.summary.BuilderConstructor? then BuilderOf(c.args[0]) else Reg(c.args[0]));
    CarriesAny(s, others);
    var from := b.slot;
    if b.slot == receiver && GetAll(m, others) != {} {
      from := FromAny(m, others, b.trace);
    }
    assert Comes(st, s, env, Link(from, b.trace), b);
  }

  lemma ConstructorCarries(st: Statement, s: State, env: Env, a: Link, b: Link)
    requires st.op.Invoke? && Decided(st, env, b.slot) && st.op.call.args != []
    requires var f := st.op.call.summary; f.PathObjectConstructor? || f.WrapperConstructor? || f.BuilderConstructor?
    requires Comes(st, s, env, a, b)
    ensures b.trace in Contents(Summarised(st, s, env), b.slot)
  {
    var others := st.op.call.args[1..];
    CarriesAny(s, others);
    if a.slot in Uses(st.op, env, b.slot) {
      ToAll(s.regs - PENDINGS, others, a.trace, a.slot);
    }
  }

  lemma ConstructorExactly(st: Statement, s: State, env: Env, b: Link)
    requires st.op.Invoke? && Decided(st, env, b.slot)
    requires var f := st.op.call.summary; f.PathObjectConstructor? || f.WrapperConstructor? || f.BuilderConstructor?
    ensures b.trace in Contents(Summarised(st, s, env), b.slot) <==> Arrived(st, s, env, b)
  {
    if st.op.call.args != [] {
      if b.trace in Contents(Summarised(st, s, env), b.slot) {
        ConstructorOrigin(st, s, env, b);
      }
      forall a | Comes(st, s, env, a, b) ensures b.trace in Contents(Summarised(st, s, env), b.slot) {
        ConstructorCarries(st, s, env, a, b);
      }
    } else if b.trace in Contents(Summarised(st, s, env), b.slot) {
      assert Comes(st, s, env, b, b);
    }
  }

  lemma StreamExactly(st: Statement, s: State, env: Env, b: Link)
    requires st.op.Invoke? && Decided(st, env, b.slot)
    requires st.op.call.summary.FillsArray? || st.op.call.summary.YieldsBytes?
    ensures b.trace in Contents(Summarised(st, s, env), b.slot) <==> Arrived(st, s, env, b)
  {
    var c := st.op.call;
    if b.trace in Contents(Summarised(st, s, env), b.slot) {
      var from := b.slot;
      if !(Leaves(st.op, b.slot) && b.trace in Contents(s, b.slot)) {
        from := In(Reg(c.args[0]));
      }
      assert Comes(st, s, env, Link(from, b.trace), b);
    }
  }

  lemma MutatorExactly(st: Statement, s: State, env: Env, b: Link)
    requires st.op.Invoke? && st.op.call.summary.BuilderMutator?
    ensures b.trace in Contents(Summarised(st, s, env), b.slot) <==> Arrived(st, s, env, b)
  {
    var c := st.op.call;
    var args := c.args;
    if args != [] {
      var m, builder := s.regs - PENDINGS, In(BuilderOf(args[0]));
      if b.trace in Contents(Summarised(st, s, env), b.slot) {
        var from := b.slot;
        if b.trace in GetAll(m, args[1..]) && (b.slot == builder || b.slot == In(PendingBuilder)) {
          from := FromAny(m, args[1..], b.trace);
        } else if b.slot == In(PendingBuilder) {
          from := builder;
        }
        assert Comes(st, s, env, Link(from, b.trace), b);
      }
      forall a | Comes(st, s, env, a, b) ensures b.trace in Contents(Summarised(st, s, env), b.slot) {
        if a.slot in Of(args[1..]) && a.slot in Uses(st.op, env, b.slot) {
          ToAll(m, args[1..], a.trace, a.slot);
        }
      }
    } else if b.trace in Contents(Summarised(st, s, env), b.slot) {
      assert Comes(st, s, env, b, b);
    }
  }

  lemma SummaryExactly(st: Statement, s: State, env: Env, b: Link)
    requires st.op.Invoke? && Decided(st, env, b.slot)
    ensures b.trace in Contents(Summarised(st, s, env), b.slot) <==> Arrived(st, s, env, b)
  {
    match st.op.call.summary
    case Source(_) => SourceExactly(st, s, env, b);
    case Transform => TransformExactly(st, s, env, b);
    case ExternalUri(_) => ExternalExactly(st, s, env, b);
    case ExternalPath(_, _) => ExternalExactly(st, s, env, b);
    case PathStreamConstructor => PathStreamExactly(st, s, env, b);
    case PathObjectConstructor => ConstructorExactly(st, s, env, b);
    case WrapperConstructor => ConstructorExactly(st, s, env, b);
    case BuilderConstructor => ConstructorExactly(st, s, env, b);
    case FillsArray => StreamExactly(st, s, env, b);
    case YieldsBytes => StreamExactly(st, s, env, b);
    case BuilderMutator(_) => MutatorExactly(st, s, env, b);
    case _ => ResultExactly(st, s, env, b);
  }

  lemma InvokeExactly(st: Statement, s: State, env: Env, b: Link)
    requires st.op.Invoke?
    ensures b.trace in Contents(Step(st, s, env), b.slot) <==> Arrived(st, s, env, b)
  {
    var c := st.op.call;
    if Decided(st, env, b.slot) {
      SummaryExactly(st, s, env, b);
      assert Contents(Step(st, s, env), b.slot) == Contents(Summarised(st, s, env), b.slot);
    } else {
      assert Contents(Step(st, s, env), b.slot) == Summaries(env.returnTaints, c.target);
      assert forall a :: !Edge(st, env, a, b);
    }
  }

  /**
   One instruction, whatever it is: a trace is in a slot afterwards exactly when the instruction put it
   there by itself, left it there, or passed it on from a slot that had it before.
   */
  lemma StepCarriesExactly(st: Statement, s: State, env: Env, b: Link)
    ensures b.trace in Contents(Step(st, s, env), b.slot) <==> Arrived(st, s, env, b)
  {
    match st.op
    case MoveResult(_, _) => MoveResultExactly(st, s, env, b);
    case Move(_, _, _) => MoveExactly(st, s, env, b);
    case ArrayGet(_, _, _) => ArrayGetExactly(st, s, env, b);
    case Write(_, _, _) => WriteExactly(st, s, env, b);
    case FilledNewArray(_) => ArrayMadeExactly(st, s, env, b);
    case ArrayPut(_, _) => ArrayPutExactly(st, s, env, b);
    case Invoke(_) => InvokeExactly(st, s, env, b);
    case _ => OtherExactly(st, s, env, b);
  }

  // ----- a run of instructions -----

  /** The state after a run of instructions. */
  ghost function Through(code: seq<Statement>, env: Env, s: State): State
    decreases |code|
  {
    if code == [] then s else Step(code[|code| - 1], Through(code[..|code| - 1], env, s), env)
  }

  /** What a state has to begin with. */
  ghost function Has(s: State): Link -> bool {
    (link: Link) => link.trace in Contents(s, link.slot)
  }

  /**
   A trace on its way: it is there to begin with, or introduced by instruction n - 1, and each of the
   instructions from n on leaves it or passes it on.
   */
  ghost predicate Chain(code: seq<Statement>, env: Env, entry: Link -> bool, n: nat, links: seq<Link>) {
    && n <= |code| && |links| == |code| - n + 1
    && (if n == 0 then entry(links[0]) else Introduces(code[n - 1], env, links[0].slot, links[0].trace))
    && forall i :: 0 <= i < |code| - n ==> Edge(code[n + i], env, links[i], links[i + 1])
  }

  /** No guarded form hides the trace on the way. */
  ghost predicate Open(code: seq<Statement>, env: Env, s: State, n: nat, links: seq<Link>)
    requires n <= |code| && |links| == |code| - n + 1
  {
    forall i :: 0 <= i < |code| - n ==> OpenAt(code, env, s, n + i, links[i].slot, links[i + 1].slot)
  }

  ghost predicate OpenAt(code: seq<Statement>, env: Env, s: State, m: nat, a: Slot, b: Slot)
    requires m < |code|
  {
    !Hidden(code[m].op, Through(code[..m], env, s), a, b)
  }

  lemma OpenInFront(code: seq<Statement>, front: seq<Statement>, env: Env, s: State, m: nat, a: Slot, b: Slot)
    requires code != [] && front == code[..|code| - 1] && m < |front|
    ensures OpenAt(code, env, s, m, a, b) <==> OpenAt(front, env, s, m, a, b)
  {
    assert code[..m] == front[..m];
  }

  ghost predicate Ends(links: seq<Link>, b: Link) {
    links != [] && links[|links| - 1] == b
  }

  ghost predicate OpenChain(code: seq<Statement>, env: Env, s: State, n: nat, links: seq<Link>, b: Link) {
    Chain(code, env, Has(s), n, links) && Open(code, env, s, n, links) && Ends(links, b)
  }

  lemma ChainWithLast(code: seq<Statement>, env: Env, entry: Link -> bool, n: nat, links: seq<Link>, b: Link)
    requires code != [] && Chain(code[..|code| - 1], env, entry, n, links)
    requires Edge(code[|code| - 1], env, links[|links| - 1], b)
    ensures Chain(code, env, entry, n, links + [b])
  {
    var front, more := code[..|code| - 1], links + [b];
    forall i | 0 <= i < |code| - n ensures Edge(code[n + i], env, more[i], more[i + 1]) {
      if i < |front| - n {
        assert front[n + i] == code[n + i];
      }
    }
  }

  lemma OpenWithLast(code: seq<Statement>, env: Env, s: State, n: nat, links: seq<Link>, b: Link)
    requires n < |code| && |links| == |code| - n && Open(code[..|code| - 1], env, s, n, links)
    requires OpenAt(code, env, s, |code| - 1, links[|links| - 1].slot, b.slot)
    ensures Open(code, env, s, n, links + [b])
  {
    var front, more := code[..|code| - 1], links + [b];
    forall i | 0 <= i < |code| - n ensures OpenAt(code, env, s, n + i, more[i].slot, more[i + 1].slot) {
      if i < |front| - n {
        OpenInFront(code, front, env, s, n + i, links[i].slot, links[i + 1].slot);
      }
    }
  }

  lemma ChainWithoutLast(code: seq<Statement>, env: Env, entry: Link -> bool, n: nat, links: seq<Link>)
    requires n < |code| && Chain(code, env, entry, n, links)
    ensures Chain(code[..|code| - 1], env, entry, n, links[..|links| - 1])
    ensures Edge(code[|code| - 1], env, links[|links| - 2], links[|links| - 1])
  {
    var front, less := code[..|code| - 1], links[..|links| - 1];
    var last := |code| - n - 1;
    assert Edge(code[n + last], env, links[last], links[last + 1]);
    forall i | 0 <= i < |front| - n ensures Edge(front[n + i], env, less[i], less[i + 1]) {
      assert Edge(code[n + i], env, links[i], links[i + 1]);
    }
  }

  lemma OpenWithoutLast(code: seq<Statement>, env: Env, s: State, n: nat, links: seq<Link>)
    requires n < |code| && |links| == |code| - n + 1 && Open(code, env, s, n, links)
    ensures Open(code[..|code| - 1], env, s, n, links[..|links| - 1])
    ensures OpenAt(code, env, s, |code| - 1, links[|links| - 2].slot, links[|links| - 1].slot)
  {
    var front, less := code[..|code| - 1], links[..|links| - 1];
    var last := |code| - n - 1;
    assert OpenAt(code, env, s, n + last, links[last].slot, links[last + 1].slot);
    forall i | 0 <= i < |front| - n ensures OpenAt(front, env, s, n + i, less[i].slot, less[i + 1].slot) {
      OpenInFront(code, front, env, s, n + i, links[i].slot, links[i + 1].slot);
    }
  }

  lemma {:induction false} CarriedByChain(code: seq<Statement>, env: Env, s: State, b: Link)
    returns (n: nat, links: seq<Link>)
    requires b.trace in Contents(Through(code, env, s), b.slot)
    ensures OpenChain(code, env, s, n, links, b)
    decreases |code|
  {
    n, links := |code|, [b];
    if code != [] {
      var st, before := code[|code| - 1], Through(code[..|code| - 1], env, s);
      StepCarriesExactly(st, before, env, b);
      if !Introduces(st, env, b.slot, b.trace) {
        var a :| Comes(st, before, env, a, b);
        n, links := CarriedByChain(code[..|code| - 1], env, s, a);
        ChainWithLast(code, env, Has(s), n, links, b);
        OpenWithLast(code, env, s, n, links, b);
        links := links + [b];
      }
    }
  }

  lemma {:induction false} ChainCarries(code: seq<Statement>, env: Env, s: State, n: nat, links: seq<Link>, b: Link)
    requires OpenChain(code, env, s, n, links, b)
    ensures b.trace in Contents(Through(code, env, s), b.slot)
    decreases |code|
  {
    if code != [] {
      var st, before := code[|code| - 1], Through(code[..|code| - 1], env, s);
      if n < |code| {
        ChainWithoutLast(code, env, Has(s), n, links);
        OpenWithoutLast(code, env, s, n, links);
        ChainCarries(code[..|code| - 1], env, s, n, links[..|links| - 1], links[|links| - 2]);
        assert Comes(st, before, env, links[|links| - 2], b);
      }
      StepCarriesExactly(st, before, env, b);
    }
  }

  /** After any run of instructions a trace is in a slot exactly when an open chain leads there. */
  lemma CarriesExactlyChains(code: seq<Statement>, env: Env, s: State, b: Link)
    ensures b.trace in Contents(Through(code, env, s), b.slot) <==>
            exists n: nat, links :: OpenChain(code, env, s, n, links, b)
  {
    if b.trace in Contents(Through(code, env, s), b.slot) {
      var n, links := CarriedByChain(code, env, s, b);
    }
    forall n: nat, links | OpenChain(code, env, s, n, links, b)
      ensures b.trace in Contents(Through(code, env, s), b.slot)
    {
      ChainCarries(code, env, s, n, links, b);
    }
  }

  /** No edge of the chain is one that something else may take the place of. */
  ghost predicate Firm(code: seq<Statement>, n: nat, links: seq<Link>)
    requires n <= |code| && |links| == |code| - n + 1
  {
    forall i :: 0 <= i < |code| - n ==> !Hideable(code[n + i].op, links[i].slot, links[i + 1].slot)
  }

  lemma FirmWithoutLast(code: seq<Statement>, n: nat, links: seq<Link>)
    requires n < |code| && |links| == |code| - n + 1 && Firm(code, n, links)
    ensures Firm(code[..|code| - 1], n, links[..|links| - 1])
    ensures !Hideable(code[|code| - 1].op, links[|links| - 2].slot, links[|links| - 1].slot)
  {
    var front, less := code[..|code| - 1], links[..|links| - 1];
    var last := |code| - n - 1;
    assert !Hideable(code[n + last].op, links[last].slot, links[last + 1].slot);
    forall i | 0 <= i < |front| - n ensures !Hideable(front[n + i].op, less[i].slot, less[i + 1].slot) {
      assert !Hideable(code[n + i].op, links[i].slot, links[i + 1].slot);
    }
  }

  ghost predicate NoneGuarded(code: seq<Statement>) {
    forall i :: 0 <= i < |code| ==> !Guarded(code[i].op)
  }

  /** A chain, which the state decides nothing about. */
  ghost predicate Leads(code: seq<Statement>, env: Env, entry: Link -> bool, b: Link) {
    exists n: nat, links :: Chain(code, env, entry, n, links) && Ends(links, b)
  }

  /** Without guarded forms every chain is open: what is carried depends only on the instructions and the start. */
  lemma CarriesExactlyLeads(code: seq<Statement>, env: Env, s: State, entry: Link -> bool, b: Link)
    requires NoneGuarded(code) && forall link :: entry(link) <==> link.trace in Contents(s, link.slot)
    ensures b.trace in Contents(Through(code, env, s), b.slot) <==> Leads(code, env, entry, b)
  {
    CarriesExactlyChains(code, env, s, b);
    forall n: nat, links | Chain(code, env, entry, n, links) && Ends(links, b)
      ensures OpenChain(code, env, s, n, links, b)
    {
      assert Open(code, env, s, n, links);
    }
    if n: nat, links :| OpenChain(code, env, s, n, links, b) {
      assert Chain(code, env, entry, n, links);
    }
  }
}
