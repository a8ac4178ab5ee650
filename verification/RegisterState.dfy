/**
 The abstract state of the Smali register analysis: for every register, and for the summaries kept
 beside it, the set of source traces it may carry. The updates the transfer function is built from
 are here, with the law each of them obeys over the join of two states.
 */
module RegisterState {
  import opened Descriptors

  /** Where tainted data came from. */
  datatype Trace = Trace(kind: string, line: int, methodKey: string, file: string)

  type Traces = set<Trace>

  /** A register, a summary about a register, or what the last invocation left behind. */
  datatype Key =
    | Reg(r: Register)
    | ArrayOf(r: Register)
    | BuilderOf(r: Register)
    | ReturnedIn(r: Register)
    | PendingReturn
    | PendingBuilder
    | PendingArray

  type Registers = map<Key, Traces>

  /** The registers, and the traces of the invocation result not yet moved to a register. */
  datatype State = State(regs: Registers, pending: Traces)

  function Get(m: Registers, k: Key): Traces {
    if k in m then m[k] else {}
  }

  function GetAll(m: Registers, rs: seq<Register>): Traces {
    if rs == [] then {} else Get(m, Reg(rs[0])) + GetAll(m, rs[1..])
  }

  /** Strong update: the key carries exactly t. */
  function Put(m: Registers, k: Key, t: Traces): Registers {
    if t != {} then m[k := t] else m - {k}
  }

  /** Weak update: the key carries t as well. */
  function Add(m: Registers, k: Key, t: Traces): Registers {
    if t != {} then m[k := Get(m, k) + t] else m
  }

  /** Guarded strong update: replaces what the key carries, but only by something. */
  function Replace(m: Registers, k: Key, t: Traces): Registers {
    if t != {} then m[k := t] else m
  }

  function Copy(m: Registers, from: Key, to: Key): Registers {
    if from in m then m[to := m[from]] else m - {to}
  }

  /** Every key the source tracks for one register. */
  function Tracked(r: Register): set<Key> {
    {Reg(r), ArrayOf(r), BuilderOf(r), ReturnedIn(r)}
  }

  /** The high word of a wide pair. */
  function High(r: Register): Register {
    Register(r.bank, r.index + 1)
  }

  // ----- join and order -----

  function Join(a: Registers, b: Registers): Registers {
    map k | k in a.Keys + b.Keys :: Get(a, k) + Get(b, k)
  }

  function JoinStates(s: State, t: State): State {
    State(Join(s.regs, t.regs), s.pending + t.pending)
  }

  ghost predicate Below(a: Registers, b: Registers) {
    forall k :: k in a ==> k in b && a[k] <= b[k]
  }

  /** The second state knows about everything the first does. */
  ghost predicate Leq(s: State, t: State) {
    Below(s.regs, t.regs) && s.pending <= t.pending
  }

  lemma Pointwise(a: Registers, b: Registers)
    requires a.Keys == b.Keys
    requires forall k :: k in a ==> Get(a, k) == Get(b, k)
    ensures a == b
  {
    assert forall k :: k in a ==> a[k] == Get(a, k) && b[k] == Get(b, k);
  }

  lemma JoinGet(a: Registers, b: Registers, k: Key)
    ensures Get(Join(a, b), k) == Get(a, k) + Get(b, k)
    ensures k in Join(a, b) <==> k in a || k in b
  {
    if k !in a && k !in b {
      assert Get(a, k) + Get(b, k) == {};
    }
  }

  lemma JoinIsUpper(s: State, t: State)
    ensures Leq(s, JoinStates(s, t)) && Leq(t, JoinStates(s, t))
  {
  }

  lemma LeqIsJoin(s: State, t: State)
    ensures Leq(s, t) <==> JoinStates(s, t) == t
  {
    JoinIsUpper(s, t);
    if Leq(s, t) {
      assert Join(s.regs, t.regs).Keys == t.regs.Keys;
      forall k | k in t.regs ensures Get(Join(s.regs, t.regs), k) == Get(t.regs, k) {
        JoinGet(s.regs, t.regs, k);
        assert Get(s.regs, k) <= Get(t.regs, k);
      }
      Pointwise(Join(s.regs, t.regs), t.regs);
      assert s.pending + t.pending == t.pending;
    }
  }

  lemma LeqTransitive(s: State, t: State, u: State)
    requires Leq(s, t) && Leq(t, u)
    ensures Leq(s, u)
  {
  }

  lemma JoinAssociative(s: State, t: State, u: State)
    ensures JoinStates(JoinStates(s, t), u) == JoinStates(s, JoinStates(t, u))
  {
    var a, b, c := s.regs, t.regs, u.regs;
    forall k ensures Get(Join(Join(a, b), c), k) == Get(Join(a, Join(b, c)), k) {
      JoinedThrice(a, b, c, k);
    }
    assert Join(Join(a, b), c).Keys == Join(a, Join(b, c)).Keys;
    Pointwise(Join(Join(a, b), c), Join(a, Join(b, c)));
    assert s.pending + t.pending + u.pending == s.pending + (t.pending + u.pending);
  }

  lemma JoinedThrice(a: Registers, b: Registers, c: Registers, k: Key)
    ensures Get(Join(Join(a, b), c), k) == Get(Join(a, Join(b, c)), k)
  {
    JoinGet(a, b, k);
    JoinGet(b, c, k);
    JoinGet(Join(a, b), c, k);
    JoinGet(a, Join(b, c), k);
    assert Get(a, k) + Get(b, k) + Get(c, k) == Get(a, k) + (Get(b, k) + Get(c, k));
  }

  lemma {:induction false} JoinGetAll(a: Registers, b: Registers, rs: seq<Register>)
    ensures GetAll(Join(a, b), rs) == GetAll(a, rs) + GetAll(b, rs)
  {
    if rs != [] {
      JoinGetAll(a, b, rs[1..]);
      JoinGet(a, b, Reg(rs[0]));
    }
  }

  lemma JoinDrop(a: Registers, b: Registers, ks: set<Key>)
    ensures Join(a, b) - ks == Join(a - ks, b - ks)
  {
    assert (Join(a, b) - ks).Keys == Join(a - ks, b - ks).Keys;
  }

  lemma JoinPut(a: Registers, b: Registers, k: Key, t: Traces, u: Traces)
    ensures Put(Join(a, b), k, t + u) == Join(Put(a, k, t), Put(b, k, u))
  {
    var left, right := Put(Join(a, b), k, t + u), Join(Put(a, k, t), Put(b, k, u));
    PutGet(Join(a, b), k, t + u);
    PutGet(a, k, t);
    PutGet(b, k, u);
    assert left.Keys == right.Keys;
    forall j | j in left ensures Get(left, j) == Get(right, j) {
      JoinGet(a, b, j);
      JoinGet(Put(a, k, t), Put(b, k, u), j);
    }
    Pointwise(left, right);
  }

  lemma PutGet(m: Registers, k: Key, t: Traces)
    ensures Get(Put(m, k, t), k) == t
    ensures forall j :: j != k ==> Get(Put(m, k, t), j) == Get(m, j)
    ensures Put(m, k, t).Keys == if t == {} then m.Keys - {k} else m.Keys + {k}
  {
  }

  lemma JoinAdd(a: Registers, b: Registers, k: Key, t: Traces, u: Traces)
    ensures Add(Join(a, b), k, t + u) == Join(Add(a, k, t), Add(b, k, u))
  {
    var left, right := Add(Join(a, b), k, t + u), Join(Add(a, k, t), Add(b, k, u));
    AddGet(Join(a, b), k, t + u);
    AddGet(a, k, t);
    AddGet(b, k, u);
    assert left.Keys == right.Keys;
    forall j | j in left ensures Get(left, j) == Get(right, j) {
      JoinGet(a, b, j);
      JoinGet(Add(a, k, t), Add(b, k, u), j);
    }
    Pointwise(left, right);
  }

  lemma AddGet(m: Registers, k: Key, t: Traces)
    ensures Get(Add(m, k, t), k) == Get(m, k) + t
    ensures forall j :: j != k ==> Get(Add(m, k, t), j) == Get(m, j)
    ensures Add(m, k, t).Keys == if t == {} then m.Keys else m.Keys + {k}
  {
  }

  lemma JoinCopy(a: Registers, b: Registers, from: Key, to: Key)
    ensures Copy(Join(a, b), from, to) == Join(Copy(a, from, to), Copy(b, from, to))
  {
    var left, right := Copy(Join(a, b), from, to), Join(Copy(a, from, to), Copy(b, from, to));
    CopyGet(Join(a, b), from, to);
    CopyGet(a, from, to);
    CopyGet(b, from, to);
    assert left.Keys == right.Keys;
    forall j | j in left ensures Get(left, j) == Get(right, j) {
      JoinGet(a, b, j);
      JoinGet(a, b, from);
      JoinGet(Copy(a, from, to), Copy(b, from, to), j);
    }
    Pointwise(left, right);
  }

  lemma CopyGet(m: Registers, from: Key, to: Key)
    ensures Get(Copy(m, from, to), to) == Get(m, from)
    ensures forall j :: j != to ==> Get(Copy(m, from, to), j) == Get(m, j)
    ensures Copy(m, from, to).Keys == if from in m then m.Keys + {to} else m.Keys - {to}
  {
  }

  lemma GetAllContains(m: Registers, rs: seq<Register>, r: Register, t: Trace)
    requires r in rs && t in Get(m, Reg(r))
    ensures t in GetAll(m, rs)
  {
    if rs[0] != r {
      GetAllContains(m, rs[1..], r, t);
    }
  }

  /** The join of several states. */
  ghost function JoinAll(ss: seq<State>): State
    requires ss != []
  {
    if |ss| == 1 then ss[0] else JoinStates(JoinAll(ss[..|ss| - 1]), ss[|ss| - 1])
  }

  lemma JoinAllSnoc(ss: seq<State>, s: State)
    requires ss != []
    ensures JoinAll(ss + [s]) == JoinStates(JoinAll(ss), s)
  {
    assert (ss + [s])[..|ss|] == ss;
  }

  lemma {:induction false} JoinAllConcat(ss: seq<State>, ts: seq<State>)
    requires ss != [] && ts != []
    ensures JoinAll(ss + ts) == JoinStates(JoinAll(ss), JoinAll(ts))
    decreases |ts|
  {
    var front, last := ts[..|ts| - 1], ts[|ts| - 1];
    if front == [] {
      assert ts == [last];
      JoinAllSnoc(ss, last);
    } else {
      JoinAllConcat(ss, front);
      JoinAllSnoc(ss + front, last);
      assert ss + ts == ss + front + [last];
      JoinAssociative(JoinAll(ss), JoinAll(front), last);
    }
  }

  /** What a join of states carries, one of them carries. */
  lemma {:induction false} JoinAllHolds(ss: seq<State>, k: Key, t: Trace) returns (n: nat)
    requires ss != [] && t in Get(JoinAll(ss).regs, k)
    ensures n < |ss| && t in Get(ss[n].regs, k)
    decreases |ss|
  {
    n := |ss| - 1;
    if n > 0 {
      JoinGet(JoinAll(ss[..n]).regs, ss[n].regs, k);
      if t !in Get(ss[n].regs, k) {
        n := JoinAllHolds(ss[..n], k, t);
      }
    }
  }
}
