/**
 What an instruction leaves alone, and how long the result of an invocation lives.
 */
module TransferFrame {
  import opened Wrappers
  import opened Descriptors
  import opened RegisterState
  import opened Transfer

  function HighWord(r: Register, wide: bool): set<Key> {
    if wide then Tracked(High(r)) else {}
  }

  /** The keys an instruction may write or clear, besides those of a pending result. */
  function Touched(op: Op): set<Key> {
    match op
    case StaticGet(dest, _, wide) => Tracked(dest) + HighWord(dest, wide)
    case MoveResult(dest, wide) => Tracked(dest) + HighWord(dest, wide)
    case Move(dest, _, form) => Tracked(dest) + HighWord(dest, form.Wide?)
    case ArrayGet(dest, _, wide) => Tracked(dest) + HighWord(dest, wide)
    case Write(dest, _, wide) => Tracked(dest) + HighWord(dest, wide)
    case FillArrayData(base) => {ArrayOf(base)}
    case ArrayPut(_, base) => {ArrayOf(base)}
    case Invoke(c) => TouchedBy(c)
    case _ => {}
  }

  /** Only constructors, builder calls and calls that fill a buffer touch anything. */
  function TouchedBy(c: Call): set<Key> {
    match c.summary
    case PathStreamConstructor => if c.args != [] then {Reg(c.args[0])} else {}
    case PathObjectConstructor => if c.args != [] then {Reg(c.args[0])} else {}
    case WrapperConstructor => if c.args != [] then {Reg(c.args[0])} else {}
    case BuilderConstructor => if c.args != [] then {BuilderOf(c.args[0])} else {}
    case BuilderMutator(_) => if c.args != [] then {BuilderOf(c.args[0])} else {}
    case FillsArray => if |c.args| > 1 then {ArrayOf(c.args[1])} else {}
    case _ => {}
  }

  /** Whatever an instruction does not touch carries what it carried. */
  lemma StepFrame(st: Statement, s: State, env: Env, k: Key)
    requires k !in Touched(st.op) && k !in PENDINGS
    ensures Get(Step(st, s, env).regs, k) == Get(s.regs, k)
  {
    match st.op
    case Invoke(c) => InvokeFrame(s.regs - PENDINGS, c, st.line, env, k);
    case Move(dest, src, form) => MoveFrame(s.regs - PENDINGS, dest, src, form, k);
    case _ =>
  }

  lemma MoveFrame(m: Registers, dest: Register, src: Register, form: MoveForm, k: Key)
    requires k !in Tracked(dest) + HighWord(dest, form.Wide?)
    ensures Get(AfterMove(m, dest, src, form), k) == Get(m, k)
  {
  }

  lemma InvokeFrame(m: Registers, c: Call, line: int, env: Env, k: Key)
    requires k !in TouchedBy(c) && k !in PENDINGS
    ensures Get(AfterInvoke(m, c, line, env).regs, k) == Get(m, k)
  {
    SummaryFrame(m, c, line, env, k);
  }

  lemma SummaryFrame(m: Registers, c: Call, line: int, env: Env, k: Key)
    requires k !in TouchedBy(c) && k !in PENDINGS
    ensures Get(AfterSummary(m, c, line, env).regs, k) == Get(m, k)
  {
  }

  /** The result of an invocation, and the elements of a new array, are gone after the next instruction. */
  lemma ResultLivesOneStep(st: Statement, s: State, env: Env)
    requires !st.op.Invoke? && !st.op.FilledNewArray?
    ensures Step(st, s, env).pending == {} && forall k :: k in PENDINGS ==> k !in Step(st, s, env).regs
  {
    match st.op
    case Move(dest, src, form) => MoveKeepsClear(s.regs - PENDINGS, dest, src, form);
    case _ =>
  }

  lemma MoveKeepsClear(m: Registers, dest: Register, src: Register, form: MoveForm)
    requires forall k :: k in PENDINGS ==> k !in m
    ensures forall k :: k in PENDINGS ==> k !in AfterMove(m, dest, src, form)
  {
  }
}
