/**
 Which writes reach which instructions. What an instruction leaves alone adds up over paths: a key
 carries what its last writer put there, and the analysis of a method holds exactly the writes that
 reach an instruction.
 */
module ReachingWrites {
  import opened Descriptors
  import opened RegisterState
  import opened Transfer
  import opened TransferFrame
  import opened Distributivity
  import opened RegisterFlow

  /** Nothing between position n of the path and its last instruction touches the key. */
  ghost predicate Untouched(p: Program, path: seq<nat>, n: nat, k: Key)
    requires IsPath(p, path)
  {
    forall m :: n <= m < |path| - 1 ==> k !in Touched(p.code[path[m]].op)
  }

  lemma PathStart(p: Program, path: seq<nat>, n: nat)
    requires IsPath(p, path) && 0 < n <= |path|
    ensures IsPath(p, path[..n])
  {
    forall m | 0 <= m < n - 1 ensures path[..n][m + 1] in p.succs[path[..n][m]] {
      assert path[m + 1] in p.succs[path[m]];
    }
  }

  /** What a path carries in a key is what it carried there when the key was last touched. */
  lemma {:induction false} LastWriterDecides(p: Program, env: Env, initial: Registers, path: seq<nat>, n: nat, k: Key)
    requires IsPath(p, path) && n < |path| && IsPath(p, path[..n + 1])
    requires k !in PENDINGS && Untouched(p, path, n, k)
    ensures Get(Arriving(p, env, initial, path).regs, k) == Get(Arriving(p, env, initial, path[..n + 1]).regs, k)
    decreases |path|
  {
    if n == |path| - 1 {
      assert path[..n + 1] == path;
    } else {
      PathPrefix(p, path);
      var before := path[..|path| - 1];
      assert before[..n + 1] == path[..n + 1];
      LastWriterDecides(p, env, initial, before, n, k);
      assert k !in Touched(p.code[path[|path| - 2]].op);
      StepFrame(p.code[Last(before)], Arriving(p, env, initial, before), env, k);
    }
  }

  // ----- what an analysis holds -----

  /** The trace is in the key because the method starts with it and the path never touches the key. */
  ghost predicate FromStart(p: Program, initial: Registers, path: seq<nat>, k: Key, t: Trace)
    requires IsPath(p, path)
  {
    Untouched(p, path, 0, k) && t in Get(initial, k)
  }

  /** The trace is in the key because instruction n of the path, the last to touch the key, put it there. */
  ghost predicate FromWriter(p: Program, env: Env, initial: Registers, path: seq<nat>, n: nat, k: Key, t: Trace)
    requires IsPath(p, path)
  {
    && n < |path| - 1 && IsPath(p, path[..n + 1])
    && k in Touched(p.code[path[n]].op) && Untouched(p, path, n + 1, k)
    && t in Get(Step(p.code[path[n]], Arriving(p, env, initial, path[..n + 1]), env).regs, k)
  }

  ghost predicate ReachedBy(p: Program, env: Env, initial: Registers, path: seq<nat>, k: Key, t: Trace)
    requires IsPath(p, path)
  {
    FromStart(p, initial, path, k, t) || exists n :: FromWriter(p, env, initial, path, n, k, t)
  }

  /** A path carries a trace in a key exactly when it started with it or its last writer of the key put it there. */
  lemma PathCarriesExactlyReaching(p: Program, env: Env, initial: Registers, path: seq<nat>, k: Key, t: Trace)
    requires IsPath(p, path) && k !in PENDINGS
    ensures t in Get(Arriving(p, env, initial, path).regs, k) <==> ReachedBy(p, env, initial, path, k, t)
  {
    if t in Get(Arriving(p, env, initial, path).regs, k) {
      Origin(p, env, initial, path, k, t);
    }
    if FromStart(p, initial, path, k, t) {
      PathStart(p, path, 1);
      LastWriterDecides(p, env, initial, path, 0, k);
    }
    forall n | FromWriter(p, env, initial, path, n, k, t) ensures t in Get(Arriving(p, env, initial, path).regs, k) {
      AfterWriter(p, env, initial, path, n, k);
    }
  }

  /** Right after its last writer the key holds what that put there, and so it does at the end. */
  lemma AfterWriter(p: Program, env: Env, initial: Registers, path: seq<nat>, n: nat, k: Key)
    requires IsPath(p, path) && n < |path| - 1 && IsPath(p, path[..n + 1])
    requires k !in PENDINGS && Untouched(p, path, n + 1, k)
    ensures Get(Arriving(p, env, initial, path).regs, k)
         == Get(Step(p.code[path[n]], Arriving(p, env, initial, path[..n + 1]), env).regs, k)
  {
    PathStart(p, path, n + 2);
    LastWriterDecides(p, env, initial, path, n + 1, k);
    assert path[..n + 2][..n + 1] == path[..n + 1];
  }

  lemma {:induction false} Origin(p: Program, env: Env, initial: Registers, path: seq<nat>, k: Key, t: Trace)
    requires IsPath(p, path) && k !in PENDINGS && t in Get(Arriving(p, env, initial, path).regs, k)
    ensures ReachedBy(p, env, initial, path, k, t)
    decreases |path|
  {
    if |path| > 1 {
      PathPrefix(p, path);
      var before := path[..|path| - 1];
      var w := |path| - 2;
      assert path[..w + 1] == before;
      if k in Touched(p.code[path[w]].op) {
        assert FromWriter(p, env, initial, path, w, k, t);
      } else {
        StepFrame(p.code[path[w]], Arriving(p, env, initial, before), env, k);
        Origin(p, env, initial, before, k, t);
        OriginStays(p, env, initial, path, k, t);
      }
    }
  }

  lemma UntouchedLonger(p: Program, path: seq<nat>, n: nat, k: Key)
    requires IsPath(p, path) && |path| > 1 && IsPath(p, path[..|path| - 1])
    requires k !in Touched(p.code[path[|path| - 2]].op) && Untouched(p, path[..|path| - 1], n, k)
    ensures Untouched(p, path, n, k)
  {
    forall m | n <= m < |path| - 1 ensures k !in Touched(p.code[path[m]].op) {
      assert path[m] == path[..|path| - 1][m];
    }
  }

  lemma WriterStays(p: Program, env: Env, initial: Registers, path: seq<nat>, n: nat, k: Key, t: Trace)
    requires IsPath(p, path) && |path| > 1 && IsPath(p, path[..|path| - 1])
    requires k !in Touched(p.code[path[|path| - 2]].op)
    requires FromWriter(p, env, initial, path[..|path| - 1], n, k, t)
    ensures FromWriter(p, env, initial, path, n, k, t)
  {
    assert path[..|path| - 1][..n + 1] == path[..n + 1];
    UntouchedLonger(p, path, n + 1, k);
  }

  lemma OriginStays(p: Program, env: Env, initial: Registers, path: seq<nat>, k: Key, t: Trace)
    requires IsPath(p, path) && |path| > 1 && IsPath(p, path[..|path| - 1])
    requires k !in Touched(p.code[path[|path| - 2]].op)
    requires ReachedBy(p, env, initial, path[..|path| - 1], k, t)
    ensures ReachedBy(p, env, initial, path, k, t)
  {
    var before := path[..|path| - 1];
    if FromStart(p, initial, before, k, t) {
      UntouchedLonger(p, path, 0, k);
    } else {
      var n :| FromWriter(p, env, initial, before, n, k, t);
      WriterStays(p, env, initial, path, n, k, t);
    }
  }

  /**
   Without guarded forms, and when the loop ended by itself, a register holds a trace at an instruction
   exactly when the write of it reaches the instruction along some path.
   */
  lemma HoldsExactlyReachingWrites(p: Program, env: Env, initial: Registers, budget: nat, i: nat, k: Key, t: Trace)
    requires WellFormed(p) && Unguarded(p) && k !in PENDINGS
    requires Analysis(p, env, initial, budget).queue == []
    ensures var c := Analysis(p, env, initial, budget);
            (i in c.states && t in Get(c.states[i].regs, k)) <==>
            exists path :: IsPath(p, path) && Last(path) == i && ReachedBy(p, env, initial, path, k, t)
  {
    CarriesExactlyPaths(p, env, initial, budget, i, k, t);
    forall path | IsPath(p, path)
      ensures t in Get(Arriving(p, env, initial, path).regs, k) <==> ReachedBy(p, env, initial, path, k, t)
    {
      PathCarriesExactlyReaching(p, env, initial, path, k, t);
    }
  }

  // ----- with guarded forms as well -----

  /** A stretch of the control-flow graph, from anywhere, in which nothing but the first instruction touches the key. */
  ghost predicate CarriesOn(p: Program, walk: seq<nat>, k: Key) {
    && WellFormed(p) && walk != []
    && (forall m :: 0 <= m < |walk| ==> walk[m] < |p.code|)
    && (forall m :: 0 <= m < |walk| - 1 ==> walk[m + 1] in p.succs[walk[m]])
    && (forall m :: 0 < m < |walk| - 1 ==> k !in Touched(p.code[walk[m]].op))
  }

  /**
   Whatever forms a method contains: what a visited instruction leaves in a key is there at every
   instruction that can be reached without touching the key again.
   */
  lemma {:induction false} WriteReaches(p: Program, env: Env, initial: Registers, c: Config, walk: seq<nat>, k: Key)
    requires Finished(p, env, initial, c) && CarriesOn(p, walk, k) && |walk| > 1
    requires k !in PENDINGS && walk[0] in c.states
    ensures Last(walk) in c.states
    ensures Get(Step(p.code[walk[0]], c.states[walk[0]], env).regs, k) <= Get(c.states[Last(walk)].regs, k)
    decreases |walk|
  {
    var before := walk[..|walk| - 1];
    var i := Last(before);
    assert walk[|walk| - 2 + 1] in p.succs[i];
    if |before| > 1 {
      assert CarriesOn(p, before, k) by {
        forall m | 0 <= m < |before| - 1 ensures before[m + 1] in p.succs[before[m]] {
          assert walk[m + 1] in p.succs[walk[m]];
        }
      }
      WriteReaches(p, env, initial, c, before, k);
      assert k !in Touched(p.code[walk[|walk| - 2]].op);
      StepFrame(p.code[i], c.states[i], env, k);
    }
    assert Settled(p, env, c, i);
    assert Delivered(c, Last(walk), Step(p.code[i], c.states[i], env));
  }

  // ----- where a pending result comes from -----

  predicate Yields(op: Op) {
    op.Invoke? || op.FilledNewArray?
  }

  ghost predicate NothingPending(s: State) {
    s.pending == {} && forall k :: k in PENDINGS ==> k !in s.regs
  }

  ghost predicate YieldedTo(p: Program, c: Config, i: nat) {
    exists h :: h in c.states && h < |p.code| && h < |p.succs| && i in p.succs[h] && Yields(p.code[h].op)
  }

  ghost predicate PendingsYielded(p: Program, c: Config) {
    forall i :: i in c.states && !NothingPending(c.states[i]) ==> YieldedTo(p, c, i)
  }

  lemma JoinNothingPending(s: State, t: State)
    requires NothingPending(s) && NothingPending(t)
    ensures NothingPending(JoinStates(s, t))
  {
  }

  lemma {:induction false} DeliverAllYielded(p: Program, c: Config, targets: seq<nat>, after: State)
    requires PendingsYielded(p, c)
    requires NothingPending(after) || forall j :: j in targets ==> YieldedTo(p, c, j)
    ensures PendingsYielded(p, DeliverAll(c, targets, after))
    decreases |targets|
  {
    if targets != [] {
      var j := targets[0];
      var d := Deliver(c, j, after);
      DeliverExtends(c, j, after);
      YieldedGrows(p, c, d);
      if j in c.states && NothingPending(c.states[j]) && NothingPending(after) {
        JoinNothingPending(c.states[j], after);
      }
      DeliverAllYielded(p, d, targets[1..], after);
    }
  }

  lemma YieldedGrows(p: Program, c: Config, d: Config)
    requires c.states.Keys <= d.states.Keys
    ensures forall i :: YieldedTo(p, c, i) ==> YieldedTo(p, d, i)
  {
    forall i | YieldedTo(p, c, i) ensures YieldedTo(p, d, i) {
      var h: nat :| h in c.states && h < |p.code| && h < |p.succs| && i in p.succs[h] && Yields(p.code[h].op);
      assert h in d.states;
    }
  }

  lemma AdvanceYielded(p: Program, env: Env, c: Config)
    requires Running(p, c) && c.queue != [] && PendingsYielded(p, c)
    ensures PendingsYielded(p, Advance(p, env, c))
  {
    var h := Head(p, c);
    var after := Step(p.code[h], c.states[h], env);
    var mid := Config(c.states, c.queue[1..], c.found.Plus(Report(p.code[h], after.regs, env)));
    YieldedGrows(p, c, mid);
    if !Yields(p.code[h].op) {
      ResultLivesOneStep(p.code[h], c.states[h], env);
    } else {
      forall j | j in p.succs[h] ensures YieldedTo(p, mid, j) {
        assert h in mid.states;
      }
    }
    DeliverAllYielded(p, mid, p.succs[h], after);
  }

  /**
   Whatever the program and the budget: an instruction at which a result is pending has a visited
   predecessor that is a call or makes an array.
   */
  lemma PendingIsYielded(p: Program, env: Env, initial: Registers, budget: nat, i: nat)
    requires WellFormed(p) && NothingPending(State(initial, {}))
    ensures var c := Analysis(p, env, initial, budget);
            i in c.states && !NothingPending(c.states[i]) ==> YieldedTo(p, c, i)
  {
    forall x | Running(p, x) && x.queue != [] && PendingsYielded(p, x) ensures PendingsYielded(p, Advance(p, env, x)) {
      AdvanceYielded(p, env, x);
    }
    RunInduction(p, env, x => PendingsYielded(p, x), Start(initial), budget);
  }
}
