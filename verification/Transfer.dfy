/**
 What one Smali instruction does to the abstract state, and which instructions do it monotonically.
 Instructions are what the regular expressions of the source recognise; the tables of framework
 methods are one summary per call.
 */
module Transfer {
  import opened Wrappers
  import opened Descriptors
  import opened RegisterState

  /** The three shapes of a register move. */
  datatype MoveForm = Plain | Wide | Object

  /**
   What the analysis knows about the invoked method. Where the tables of the source overlap, the order of its tests
   leaves one summary for each call.
   */
  datatype Summary =
    | NoSummary
    | Source(kind: string)
    | DerivedSame
    | DerivedAs(derivedKind: string)
    | Transform
    | BuilderToString
    | StreamAccessor
    | ExternalUri(index: nat)
    | ExternalPath(pathIndex: nat, allBytes: bool)
    | PathStreamConstructor
    | PathObjectConstructor
    | WrapperConstructor
    | FillsArray
    | YieldsContent
    | YieldsBytes
    | BuilderConstructor
    | BuilderMutator(returnsBuilder: bool)

  /** An invocation: argument words, the exact method it names, its signature, its summary, and its name if it is a
   sink. */
  datatype Call = Call(args: seq<Register>, target: string, signature: string, summary: Summary, sink: Option<string>)

  datatype Op =
    | StaticGet(dest: Register, field: string, wide: bool)
    | MoveResult(dest: Register, wide: bool)
    | Move(dest: Register, src: Register, form: MoveForm)
    | ArrayGet(dest: Register, base: Register, wide: bool)
    | Write(dest: Register, sources: seq<Register>, wide: bool)
    | FillArrayData(base: Register)
    | FilledNewArray(elements: seq<Register>)
    | ArrayPut(value: Register, base: Register)
    | StaticPut(value: Register, field: string)
    | ReturnValue(value: Register)
    | Invoke(call: Call)
    | Other

  datatype Statement = Statement(line: int, op: Op)

  /** What an analysis of one method is given: the parsed methods, the summaries so far, and where it is. */
  datatype Env = Env(
    methods: map<string, bool>,          // exact key -> is static
    fields: map<string, Traces>,
    returnTaints: map<string, Traces>,
    methodKey: string,
    file: string)

  const EXTERNAL := "EXTERNAL_FILE_CONTENT_CANDIDATE"

  const PENDINGS := {PendingReturn, PendingBuilder, PendingArray}

  function Summaries(m: map<string, Traces>, k: string): Traces {
    if k in m then m[k] else {}
  }

  function Derive(traces: Traces, kind: string, line: int): Traces {
    set t | t in traces :: Trace(kind, line, t.methodKey, t.file)
  }

  function OnlyIf(condition: Traces, t: Trace): Traces {
    if condition != {} then {t} else {}
  }

  /** The marker for external content, if the argument that selects it is tainted. */
  function External(m: Registers, args: seq<Register>, i: nat, marker: Trace): Traces {
    if i < |args| then OnlyIf(Get(m, Reg(args[i])), marker) else {}
  }

  function ClearHigh(m: Registers, dest: Register, wide: bool): Registers {
    if wide then m - Tracked(High(dest)) else m
  }

  function SetPlain(m: Registers, dest: Register, traces: Traces, wide: bool): Registers {
    ClearHigh(Put(m - {ArrayOf(dest), BuilderOf(dest), ReturnedIn(dest)}, Reg(dest), traces), dest, wide)
  }

  function AfterMoveResult(s: State, dest: Register, wide: bool): Registers {
    var m := s.regs - {ArrayOf(dest), BuilderOf(dest), ReturnedIn(dest)};
    var m1 := Put(m - PENDINGS, Reg(dest), s.pending);
    var m2 := Put(m1, ArrayOf(dest), Get(s.regs, PendingArray));
    var m3 := Put(m2, ReturnedIn(dest), Get(s.regs, PendingReturn));
    ClearHigh(Put(m3, BuilderOf(dest), Get(s.regs, PendingBuilder)), dest, wide)
  }

  function MoveTraces(m: Registers, src: Register, form: MoveForm): Traces {
    Get(m, Reg(src)) + (if form.Wide? then Get(m, Reg(High(src))) else {})
  }

  /** Only object moves carry the array and builder summaries along. */
  function CopyIfObject(m: Registers, from: Key, to: Key, form: MoveForm): Registers {
    if form.Object? then Copy(m, from, to) else m - {to}
  }

  function AfterMove(m: Registers, dest: Register, src: Register, form: MoveForm): Registers {
    var traces := MoveTraces(m, src, form);
    var m1 := if form.Wide? then m - Tracked(dest) - Tracked(High(dest)) else m;
    var m2 := ClearHigh(Put(m1, Reg(dest), traces), dest, form.Wide?);
    var m3 := CopyIfObject(m2, ArrayOf(src), ArrayOf(dest), form);
    var m4 := CopyIfObject(m3, BuilderOf(src), BuilderOf(dest), form);
    Copy(m4, ReturnedIn(src), ReturnedIn(dest))
  }

  /** The element summary if there is one, otherwise the traces of the array register itself. */
  function ElementTraces(m: Registers, base: Register): Traces {
    if ArrayOf(base) in m then m[ArrayOf(base)] else Get(m, Reg(base))
  }

  function AfterArrayGet(m: Registers, dest: Register, base: Register, wide: bool): Registers {
    var m1 := m - {ArrayOf(dest), BuilderOf(dest), ReturnedIn(dest)};
    ClearHigh(Put(m1, Reg(dest), ElementTraces(m1, base)), dest, wide)
  }

  function AfterWrite(m: Registers, dest: Register, sources: seq<Register>, wide: bool): Registers {
    Put(ClearHigh(m - Tracked(dest), dest, wide), Reg(dest), GetAll(m, sources))
  }

  /** The framework part of an invocation: registers and pending result. */
  function AfterSummary(m: Registers, c: Call, line: int, env: Env): State {
    var external := Trace(EXTERNAL, line, env.methodKey, env.file);
    var args := c.args;
    match c.summary
    case NoSummary => State(m, {})
    case Source(kind) => State(m, {Trace(kind, line, env.methodKey, env.file)})
    case DerivedSame => State(m, if args != [] then Get(m, Reg(args[0])) else {})
    case DerivedAs(kind) => State(m, if args != [] then Derive(Get(m, Reg(args[0])), kind, line) else {})
    case Transform => State(m, GetAll(m, args))
    case BuilderToString => State(m, if args != [] then Get(m, BuilderOf(args[0])) else {})
    case StreamAccessor => State(m, if args != [] then Get(m, Reg(args[0])) else {})
    case ExternalUri(i) => State(m, External(m, args, i, external))
    case ExternalPath(i, allBytes) =>
      var content := External(m, args, i, external);
      State(if allBytes then Put(m, PendingArray, content) else m, content)
    case PathStreamConstructor =>
      if args == [] then State(m, {})
      else State(Replace(m, Reg(args[0]), OnlyIf(GetAll(m, args[1..]), external)), {})
    case PathObjectConstructor =>
      if args == [] then State(m, {}) else State(Put(m, Reg(args[0]), GetAll(m, args[1..])), {})
    case WrapperConstructor =>
      if args == [] then State(m, {}) else State(Replace(m, Reg(args[0]), GetAll(m, args[1..])), {})
    case FillsArray =>
      if |args| <= 1 then State(m, {}) else State(Add(m, ArrayOf(args[1]), Get(m, Reg(args[0]))), {})
    case YieldsContent => State(m, if args != [] then Get(m, Reg(args[0])) else {})
    case YieldsBytes =>
      var content := if args != [] then Get(m, Reg(args[0])) else {};
      State(Put(m, PendingArray, content), content)
    case BuilderConstructor =>
      if |args| <= 1 then State(m, {}) else State(Replace(m, BuilderOf(args[0]), GetAll(m, args[1..])), {})
    case BuilderMutator(returnsBuilder) =>
      if args == [] then State(m, {}) else
      var content := Get(m, BuilderOf(args[0])) + GetAll(m, args[1..]);
      var m1 := Add(m, BuilderOf(args[0]), GetAll(m, args[1..]));
      State(if returnsBuilder then Put(m1, PendingBuilder, content) else m1, {})
  }

  /** Calls whose pending result is not replaced by the return summary of a parsed method. */
  predicate KeepsResult(s: Summary) {
    s.Source? || s.DerivedSame? || s.DerivedAs? || s.Transform? || s.BuilderToString? || s.BuilderMutator?
  }

  /** A call of a method of the package yields what its return summary holds. */
  function AfterReturnSummary(s: State, c: Call, env: Env): State {
    if c.target in env.methods && !KeepsResult(c.summary) then
      var returned := Summaries(env.returnTaints, c.target);
      State(Put(s.regs, PendingReturn, returned), returned)
    else s
  }

  function AfterInvoke(m: Registers, c: Call, line: int, env: Env): State {
    AfterReturnSummary(AfterSummary(m, c, line, env), c, env)
  }

  /** The state after an instruction. */
  function Step(st: Statement, s: State, env: Env): State {
    var m := s.regs - PENDINGS;
    match st.op
    case StaticGet(dest, field, wide) => State(SetPlain(m, dest, Summaries(env.fields, field), wide), {})
    case MoveResult(dest, wide) => State(AfterMoveResult(s, dest, wide), {})
    case Move(dest, src, form) => State(AfterMove(m, dest, src, form), {})
    case ArrayGet(dest, base, wide) => State(AfterArrayGet(m, dest, base, wide), {})
    case Write(dest, sources, wide) => State(AfterWrite(m, dest, sources, wide), {})
    case FillArrayData(base) => State(m - {ArrayOf(base)}, {})
    case FilledNewArray(elements) => State(Put(m, PendingArray, GetAll(m, elements)), {})
    case ArrayPut(value, base) => State(Add(m, ArrayOf(base), Get(m, Reg(value))), {})
    case StaticPut(_, _) => State(m, {})
    case ReturnValue(_) => State(m, {})
    case Invoke(c) => AfterInvoke(m, c, st.line, env)
    case Other => State(m, {})
  }

  // ----- what an instruction reports -----

  /** A trace in an argument register of a sink call. */
  datatype Flow = Flow(line: int, sink: string, register: Register, trace: Trace)

  datatype Effects = Effects(
    flows: set<Flow>,
    arguments: set<(string, Register, Trace)>,
    fieldWrites: set<(string, Trace)>,
    fieldReads: set<string>,
    returned: Traces,
    called: set<string>)
  {
    function Plus(e: Effects): Effects {
      Effects(flows + e.flows, arguments + e.arguments, fieldWrites + e.fieldWrites,
              fieldReads + e.fieldReads, returned + e.returned, called + e.called)
    }

    ghost predicate Within(e: Effects) {
      && flows <= e.flows && arguments <= e.arguments && fieldWrites <= e.fieldWrites
      && fieldReads <= e.fieldReads && returned <= e.returned && called <= e.called
    }
  }

  const NOTHING := Effects({}, {}, {}, {}, {}, {})

  /** What an instruction reports, read off the registers after its update. */
  function Report(st: Statement, after: Registers, env: Env): Effects {
    match st.op
    case StaticGet(_, field, _) => NOTHING.(fieldReads := {field})
    case StaticPut(value, field) => NOTHING.(fieldWrites := set t | t in Get(after, Reg(value)) :: (field, t))
    case ReturnValue(value) => NOTHING.(returned := Get(after, Reg(value)))
    case Invoke(c) =>
      NOTHING.(
        flows := if c.sink.Some? then SinkFlows(c.args, c.sink.value, st.line, after) else {},
        arguments := if c.target in env.methods then ArgumentFlows(c, env.methods[c.target], after) else {},
        called := if c.target in env.methods then {c.target} else {})
    case _ => NOTHING
  }

  function SinkFlows(args: seq<Register>, sink: string, line: int, after: Registers): set<Flow> {
    set r, t | r in args && t in Get(after, Reg(r)) :: Flow(line, sink, r, t)
  }

  function ArgumentFlows(c: Call, isStatic: bool, after: Registers): set<(string, Register, Trace)> {
    set p, t | p in ArgumentRegisters(c.signature, isStatic, c.args) && t in Get(after, Reg(p.1)) :: (c.target, p.0, t)
  }
}
