/**
 Two ways of cutting a call into its arguments: one keeps a stack of expected closing brackets, the
 other counts. Both are measured against a grammar of bracketed text.
 */
module CallSplitters {
  import opened Wrappers

  type Text = seq<char>

  predicate Opens(c: char) { c == '(' || c == '[' || c == '{' }

  predicate Closes(c: char) { c == ')' || c == ']' || c == '}' }

  function CloserOf(c: char): (r: char)
    requires Opens(c)
    ensures Closes(r)
  {
    if c == '(' then ')' else if c == '[' then ']' else '}'
  }

  /** Bracketed text: brackets nest, and each is closed by its own kind. */
  ghost predicate Balanced(t: Text)
    decreases |t|
  {
    || t == []
    || (!Opens(t[0]) && !Closes(t[0]) && Balanced(t[1..]))
    || (Opens(t[0]) && exists k :: 1 <= k < |t| && Wraps(t, k) && Balanced(t[1..k]) && Balanced(t[k + 1..]))
  }

  predicate Wraps(t: Text, k: nat)
    requires k < |t| && Opens(t[0])
  {
    t[k] == CloserOf(t[0])
  }

  /** The parenthesis at e is the first that leaves what follows start balanced. */
  ghost predicate ClosesAt(code: Text, start: nat, e: int) {
    start <= e < |code| && code[e] == ')' && Balanced(code[start..e])
  }

  function Join(args: seq<Text>): Text
    requires args != []
  {
    if |args| == 1 then args[0] else args[0] + "," + Join(args[1..])
  }

  /** The text cut at every comma that has a complete text, in the sense of P, before it. */
  ghost predicate IsSplit(args: seq<Text>, text: Text, P: Text -> bool) {
    && args != [] && Join(args) == text
    && (forall i :: 0 <= i < |args| - 1 ==> P(args[i]))
    && (forall i :: 0 <= i < |args| ==> NoCut(args[i], P))
  }

  ghost predicate NoCut(a: Text, P: Text -> bool) {
    forall k :: 0 <= k < |a| && a[k] == ',' ==> !P(a[..k])
  }

  ghost function InBalance(): Text -> bool { (t: Text) => Balanced(t) }

  ghost function InDepth(): Text -> bool { (t: Text) => Depth(t) == 0 }

  /** There is only one such list of pieces. */
  lemma {:induction false} SplitIsUnique(a: seq<Text>, b: seq<Text>, text: Text, P: Text -> bool)
    requires IsSplit(a, text, P) && IsSplit(b, text, P)
    ensures a == b
  {
    FirstPiece(a, text, P);
    FirstPiece(b, text, P);
    FirstIsNoLonger(a, b, text, P);
    FirstIsNoLonger(b, a, text, P);
    assert a[0] == text[..|a[0]|] == b[0];
    if |a| > 1 {
      SplitIsUnique(a[1..], b[1..], text[|a[0]| + 1..], P);
      assert a == [a[0]] + a[1..] && b == [b[0]] + b[1..];
    }
  }

  lemma FirstPiece(a: seq<Text>, text: Text, P: Text -> bool)
    requires IsSplit(a, text, P)
    ensures |a[0]| <= |text| && a[0] == text[..|a[0]|]
    ensures |a| == 1 <==> |a[0]| == |text|
    ensures |a| > 1 ==> text[|a[0]|] == ',' && P(a[0]) && IsSplit(a[1..], text[|a[0]| + 1..], P)
  {
    if |a| > 1 {
      assert text == (a[0] + ",") + Join(a[1..]);
      assert text[|a[0]| + 1..] == Join(a[1..]);
    }
  }

  lemma FirstIsNoLonger(a: seq<Text>, b: seq<Text>, text: Text, P: Text -> bool)
    requires IsSplit(a, text, P) && IsSplit(b, text, P)
    ensures |b[0]| <= |a[0]|
  {
    FirstPiece(a, text, P);
    FirstPiece(b, text, P);
    PrefixInside(a[0], b[0], text);
  }

  lemma PrefixInside(a: Text, b: Text, text: Text)
    requires |a| <= |text| && a == text[..|a|] && |b| <= |text| && b == text[..|b|]
    ensures |a| < |b| ==> b[|a|] == text[|a|] && b[..|a|] == a
  {
  }

  lemma {:induction false} JoinAppends(args: seq<Text>, x: Text)
    requires args != []
    ensures Join(args + [x]) == Join(args) + "," + x
  {
    assert (args + [x])[1..] == args[1..] + [x];
    if |args| > 1 { JoinAppends(args[1..], x); }
  }

  lemma JoinGrows(done: seq<Text>, x: Text, c: char)
    ensures Join(done + [x + [c]]) == Join(done + [x]) + [c]
  {
    if done != [] {
      JoinAppends(done, x);
      JoinAppends(done, x + [c]);
    }
  }

  // ----- the stack of expected closers -----

  /** One character read with the given closers still expected, the innermost last. */
  function Read(stack: Text, c: char): Option<Text> {
    if Opens(c) then Some(stack + [CloserOf(c)])
    else if !Closes(c) then Some(stack)
    else if stack != [] && stack[|stack| - 1] == c then Some(stack[..|stack| - 1])
    else None
  }

  function After(stack: Text, t: Text): Option<Text> {
    if t == [] then Some(stack)
    else
      match After(stack, t[..|t| - 1])
      case None => None
      case Some(s) => Read(s, t[|t| - 1])
  }

  lemma {:induction false} AfterJoined(stack: Text, a: Text, b: Text)
    ensures After(stack, a + b) == match After(stack, a) case None => None case Some(s) => After(s, b)
    decreases |b|
  {
    if b == [] {
      assert a + b == a;
    } else {
      assert (a + b)[..|a + b| - 1] == a + b[..|b| - 1];
      AfterJoined(stack, a, b[..|b| - 1]);
    }
  }

  lemma AfterFirst(stack: Text, t: Text)
    requires t != []
    ensures After(stack, t) == match Read(stack, t[0]) case None => None case Some(s) => After(s, t[1..])
  {
    assert t == t[..1] + t[1..];
    assert After(stack, t[..1]) == Read(stack, t[0]) by { assert t[..1][..0] == []; }
    AfterJoined(stack, t[..1], t[1..]);
  }

  /** Balanced text can be read with anything pending, and leaves it pending. */
  lemma {:induction false} BalancedReads(t: Text, stack: Text)
    requires Balanced(t)
    ensures After(stack, t) == Some(stack)
    decreases |t|
  {
    if t != [] {
      AfterFirst(stack, t);
      if Opens(t[0]) {
        var k :| 1 <= k < |t| && Wraps(t, k) && Balanced(t[1..k]) && Balanced(t[k + 1..]);
        BalancedReads(t[1..k], stack + [CloserOf(t[0])]);
        BalancedReads(t[k + 1..], stack);
        assert t[1..][..k - 1] == t[1..k] && t[1..][k..] == t[k + 1..];
        BracketReads(t[1..], CloserOf(t[0]), k - 1, stack);
      } else {
        BalancedReads(t[1..], stack);
      }
    }
  }

  lemma BracketReads(u: Text, c: char, k: nat, stack: Text)
    requires k < |u| && u[k] == c && Closes(c)
    requires After(stack + [c], u[..k]) == Some(stack + [c])
    ensures After(stack + [c], u) == After(stack, u[k + 1..])
  {
    var open, rest := stack + [c], u[k..];
    assert open[..|open| - 1] == stack;
    assert Read(open, c) == Some(stack);
    ReadsOn(open, u[..k], rest);
    assert u == u[..k] + rest;
    AfterFirst(open, rest);
    assert rest[1..] == u[k + 1..];
  }

  lemma ReadsOn(stack: Text, a: Text, b: Text)
    requires After(stack, a) == Some(stack)
    ensures After(stack, a + b) == After(stack, b)
  {
    AfterJoined(stack, a, b);
  }

  /** The bottom closer either stays, or is consumed by a character of t. */
  lemma {:induction false} BottomStays(c: char, t: Text) returns (k: nat)
    requires After([c], t).Some?
    ensures k <= |t|
    ensures k == |t| ==> After([], t).Some? && After([c], t) == Some([c] + After([], t).value)
    ensures k < |t| ==>
                After([], t[..k]) == Some([]) && t[k] == c && Closes(c) && After([c], t) == After([], t[k + 1..])
    decreases |t|
  {
    if t == [] {
      assert [c] + [] == [c];
      return 0;
    }
    var n := |t| - 1;
    var u := t[..n];
    k := BottomStays(c, u);
    if k < n {
      assert u[..k] == t[..k];
      assert t[k + 1..][..n - k - 1] == u[k + 1..];
    } else {
      var x := After([], u).value;
      if x == [] && Closes(t[n]) {
        assert ([c] + x)[..|x|] == [];
        assert t[n + 1..] == [];
      } else {
        Deeper(c, x, t[n]);
        k := n + 1;
      }
    }
  }

  lemma Deeper(c: char, x: Text, d: char)
    requires x != [] || !Closes(d)
    ensures Read([c] + x, d) == match Read(x, d) case None => None case Some(s) => Some([c] + s)
  {
    if Opens(d) {
      assert ([c] + x) + [CloserOf(d)] == [c] + (x + [CloserOf(d)]);
    } else if x != [] {
      assert ([c] + x)[..|x|] == [c] + x[..|x| - 1];
    }
  }

  lemma {:induction false} ReadsBalanced(t: Text)
    requires After([], t) == Some([])
    ensures Balanced(t)
    decreases |t|
  {
    if t != [] {
      AfterFirst([], t);
      if Opens(t[0]) {
        var c := CloserOf(t[0]);
        assert [] + [c] == [c];
        var k := BottomStays(c, t[1..]);
        assert k < |t[1..]|;
        assert t[1..][..k] == t[1..k + 1] && t[1..][k + 1..] == t[k + 2..];
        ReadsBalanced(t[1..k + 1]);
        ReadsBalanced(t[k + 2..]);
        assert Wraps(t, k + 1);
      } else {
        ReadsBalanced(t[1..]);
      }
    }
  }

  /** The grammar and the stack agree. */
  lemma BalancedExactly(t: Text)
    ensures Balanced(t) <==> After([], t) == Some([])
  {
    if Balanced(t) { BalancedReads(t, []); }
    if After([], t) == Some([]) { ReadsBalanced(t); }
  }

  lemma PrefixReads(stack: Text, t: Text, k: nat)
    requires k <= |t| && After(stack, t).Some?
    ensures After(stack, t[..k]).Some?
  {
    assert t == t[..k] + t[k..];
    AfterJoined(stack, t[..k], t[k..]);
  }

  /** Where the bottom parenthesis goes, a call closes. */
  lemma EmptiesWhereItCloses(code: Text, start: nat, e: nat, s: Text)
    requires start <= e < |code| && After([')'], code[start..e]) == Some(s) && s != [] && Read(s, code[e]) == Some([])
    requires NothingClosed(code, start, e)
    ensures ClosesAt(code, start, e)
  {
    var t := code[start..e];
    var k := BottomStays(')', t);
    if k < |t| {
      ClosedThere(code, start, e, k);
      assert false;
    } else {
      assert s == [')'] + After([], t).value;
      assert |s| == 1;
      BalancedExactly(t);
    }
  }

  ghost predicate NothingClosed(code: Text, start: nat, e: nat) {
    forall i :: start <= i < e ==> !ClosesAt(code, start, i)
  }

  /** A call that closes keeps its parenthesis expected up to there. */
  lemma StillOpen(code: Text, start: nat, e: nat, pos: nat)
    requires ClosesAt(code, start, e) && start <= pos <= e
    ensures After([')'], code[start..pos]).Some? && After([')'], code[start..pos]).value != []
    ensures pos == e ==> After([')'], code[start..pos]) == Some([')'])
  {
    BalancedReads(code[start..e], [')']);
    ReadsUpTo(code, start, e, pos);
    Shifts(')', code[start..pos]);
  }

  lemma {:induction false} Shifts(c: char, t: Text)
    requires After([], t).Some?
    ensures After([c], t) == Some([c] + After([], t).value)
    decreases |t|
  {
    if t == [] {
      assert [c] + [] == [c];
    } else {
      var x := After([], t[..|t| - 1]).value;
      Shifts(c, t[..|t| - 1]);
      Deeper(c, x, t[|t| - 1]);
    }
  }

  lemma ClosesOnce(code: Text, start: nat, e: nat, f: nat)
    requires ClosesAt(code, start, e) && ClosesAt(code, start, f)
    ensures e == f
  {
    ClosesNoLater(code, start, e, f);
    ClosesNoLater(code, start, f, e);
  }

  lemma ClosesNoLater(code: Text, start: nat, e: nat, f: nat)
    requires ClosesAt(code, start, e) && ClosesAt(code, start, f)
    ensures f <= e
  {
    ExtraCloser(code, start, e);
    if e < f { ReadsUpTo(code, start, f, e + 1); }
  }

  lemma ExtraCloser(code: Text, start: nat, e: nat)
    requires ClosesAt(code, start, e)
    ensures After([], code[start..e + 1]) == None
  {
    var u := code[start..e + 1];
    assert u[..|u| - 1] == code[start..e];
    BalancedReads(code[start..e], []);
  }

  lemma ReadsUpTo(code: Text, start: nat, e: nat, pos: nat)
    requires ClosesAt(code, start, e) && start <= pos <= e
    ensures After([], code[start..pos]).Some?
  {
    var t := code[start..e];
    BalancedReads(t, []);
    PrefixReads([], t, pos - start);
    assert t[..pos - start] == code[start..pos];
  }

  // ----- counting -----

  function Depth(t: Text): int {
    if t == [] then 0
    else Depth(t[..|t| - 1]) + (if Opens(t[|t| - 1]) then 1 else if Closes(t[|t| - 1]) then -1 else 0)
  }

  function ParenDepth(t: Text): int {
    if t == [] then 0
    else ParenDepth(t[..|t| - 1]) + (if t[|t| - 1] == '(' then 1 else if t[|t| - 1] == ')' then -1 else 0)
  }

  function Parens(stack: Text): nat {
    if stack == [] then 0 else Parens(stack[..|stack| - 1]) + (if stack[|stack| - 1] == ')' then 1 else 0)
  }

  /** While the text can be read, counting sees the height of the stack. */
  lemma {:induction false} CountsStack(t: Text)
    requires After([], t).Some?
    ensures Depth(t) == |After([], t).value| && ParenDepth(t) == Parens(After([], t).value)
    decreases |t|
  {
    if t != [] {
      var u := t[..|t| - 1];
      CountsStack(u);
      var s, c := After([], u).value, t[|t| - 1];
      if Opens(c) { assert (s + [CloserOf(c)])[..|s|] == s; }
    }
  }

  lemma {:induction false} ParenDepthFirst(t: Text)
    requires t != [] && t[0] == '('
    ensures ParenDepth(t) == 1 + ParenDepth(t[1..])
    decreases |t|
  {
    if |t| == 1 {
      assert t[..0] == [] == t[1..];
    } else {
      ParenDepthFirst(t[..|t| - 1]);
      assert t[..|t| - 1][1..] == t[1..][..|t| - 2];
    }
  }

  /** The first closing parenthesis at which as many have been closed as opened. */
  ghost predicate CountsDownAt(code: Text, open: nat, i: nat) {
    && open <= i < |code| && code[i] == ')' && ParenDepth(code[open..i + 1]) == 0
    && forall j :: open <= j < i && code[j] == ')' ==> ParenDepth(code[open..j + 1]) != 0
  }

  /** The stack accepts a call exactly when counting finds an end with balanced text before it, and they agree on the
   end. */
  lemma AcceptsExactly(code: Text, start: nat, e: nat)
    requires 0 < start <= |code| && code[start - 1] == '('
    ensures ClosesAt(code, start, e) <==> CountsDownAt(code, start - 1, e) && start <= e && Balanced(code[start..e])
  {
    if ClosesAt(code, start, e) {
      forall j | start - 1 <= j <= e && code[j] == ')'
        ensures ParenDepth(code[start - 1..j + 1]) == 0 <==> j == e
      {
        ParenDepthFirst(code[start - 1..j + 1]);
        ClosedInside(code, start, e, j);
        assert code[start - 1..j + 1][1..] == code[start..j + 1];
      }
    }
  }

  lemma ClosedInside(code: Text, start: nat, e: nat, j: nat)
    requires ClosesAt(code, start, e) && start <= j <= e && code[j] == ')'
    ensures j < e ==> ParenDepth(code[start..j + 1]) >= 0
    ensures j == e ==> ParenDepth(code[start..j + 1]) == -1
  {
    var t := code[start..e];
    BalancedReads(t, []);
    if j < e {
      PrefixReads([], t, j + 1 - start);
      assert t[..j + 1 - start] == code[start..j + 1];
      CountsStack(code[start..j + 1]);
    } else {
      CountsStack(t);
      assert code[start..j + 1][..e - start] == t;
    }
  }

  /** On balanced text the two ways of finding argument commas give the same pieces. */
  lemma SplitsAgree(args: seq<Text>, text: Text)
    requires Balanced(text)
    ensures IsSplit(args, text, InBalance()) <==> IsSplit(args, text, InDepth())
  {
    BalancedReads(text, []);
    if IsSplit(args, text, InBalance()) { SameCuts(args, text, InBalance()); }
    if IsSplit(args, text, InDepth()) { SameCuts(args, text, InDepth()); }
  }

  lemma {:induction false} SameCuts(args: seq<Text>, text: Text, P: Text -> bool)
    requires After([], text).Some? && IsSplit(args, text, P) && (P == InBalance() || P == InDepth())
    ensures forall i :: 0 <= i < |args| ==> After([], args[i]).Some?
    ensures IsSplit(args, text, InBalance()) && IsSplit(args, text, InDepth())
    decreases |args|
  {
    FirstPiece(args, text, P);
    var a := args[0];
    PrefixReads([], text, |a|);
    forall k | 0 <= k <= |a| ensures Balanced(a[..k]) <==> Depth(a[..k]) == 0 {
      PrefixReads([], a, k);
      CountsStack(a[..k]);
      BalancedExactly(a[..k]);
    }
    assert a[..|a|] == a;
    if |args| > 1 {
      var rest := text[|a| + 1..];
      assert text == (a + ",") + rest;
      assert After([], a + ",") == Some([]) by { BalancedExactly(a); assert (a + ",")[..|a|] == a; }
      AfterJoined([], a + ",", rest);
      SameCuts(args[1..], rest, P);
      assert args == [a] + args[1..];
    }
  }

  /** Every piece of a balanced text is balanced. */
  lemma PiecesAreBalanced(args: seq<Text>, text: Text)
    requires Balanced(text) && IsSplit(args, text, InBalance())
    ensures forall i :: 0 <= i < |args| ==> Balanced(args[i])
    decreases |args|
  {
    FirstPiece(args, text, InBalance());
    BalancedExactly(text);
    if |args| == 1 {
      assert args[0] == text;
    } else {
      var a, rest := args[0], text[|args[0]| + 1..];
      assert text == (a + ",") + rest;
      BalancedExactly(a);
      assert After([], a + ",") == Some([]) by { assert (a + ",")[..|a|] == a; }
      AfterJoined([], a + ",", rest);
      BalancedExactly(rest);
      PiecesAreBalanced(args[1..], rest);
      assert args == [a] + args[1..];
    }
  }

  /** A call the stack accepts is cut the same way by counting: same end, same pieces. */
  lemma SplittersAgree(code: Text, start: nat, e: nat, pieces: seq<Text>, end: nat, args: seq<Text>)
    requires 0 < start <= |code| && code[start - 1] == '('
    requires ClosesAt(code, start, e) && IsSplit(pieces, code[start..e], InBalance())
    requires CountsDownAt(code, start - 1, end) && start <= end && IsSplit(args, code[start..end], InDepth())
    ensures end == e && args == pieces
  {
    AcceptsExactly(code, start, e);
    assert end == e;
    SplitsAgree(args, code[start..e]);
    SplitIsUnique(args, pieces, code[start..e], InBalance());
  }

  /** Counting also accepts what the stack refuses. */
  lemma CountingIsLaxer()
    ensures CountsDownAt("(])", 0, 2) && forall e: nat :: !ClosesAt("(])", 1, e)
  {
    assert "(])"[0..3][..2] == "(]" && "(]"[..1] == "(" && "("[..0] == "";
    assert ParenDepth("(") == 1;
    assert ParenDepth("(]") == 1;
    forall e: nat ensures !ClosesAt("(])", 1, e) {
      if e == 2 {
        assert "(])"[1..2] == "]";
      }
    }
  }

  // ----- the stack splitter -----

  type Span = (nat, nat)

  ghost predicate Tiles(pairs: seq<Span>, start: nat, end: nat) {
    && pairs != [] && pairs[0].0 == start && pairs[|pairs| - 1].1 == end
    && (forall i :: 0 <= i < |pairs| ==> start <= pairs[i].0 <= pairs[i].1 <= end)
    && (forall i :: 0 < i < |pairs| ==> pairs[i].0 == pairs[i - 1].1 + 1)
  }

  ghost predicate Within(pairs: seq<Span>, size: nat) {
    forall i :: 0 <= i < |pairs| ==> pairs[i].0 <= pairs[i].1 <= size
  }

  function Slices(code: Text, pairs: seq<Span>): (r: seq<Text>)
    requires Within(pairs, |code|)
    ensures |r| == |pairs| && forall i :: 0 <= i < |r| ==> r[i] == code[pairs[i].0..pairs[i].1]
  {
    seq(|pairs|, i requires 0 <= i < |pairs| => code[pairs[i].0..pairs[i].1])
  }

  /** The argument spans of a call: they tile what is between the parentheses and are its pieces. */
  ghost predicate ArgumentsOf(code: Text, start: nat, end: nat, pairs: seq<Span>) {
    && start <= end <= |code|
    && Tiles(pairs, start, end)
    && IsSplit(Slices(code, pairs), code[start..end], InBalance())
  }

  function Pairs(boundaries: seq<nat>): seq<Span> {
    if |boundaries| < 2 then []
    else Pairs(boundaries[..|boundaries| - 2]) + [(boundaries[|boundaries| - 2], boundaries[|boundaries| - 1])]
  }

  lemma PairsOnce(boundaries: seq<nat>, pos: nat)
    requires |boundaries| % 2 == 1
    ensures Pairs(boundaries + [pos]) == Pairs(boundaries[..|boundaries| - 1]) + [(boundaries[|boundaries| - 1], pos)]
  {
    var b := boundaries + [pos];
    assert b[..|b| - 2] == boundaries[..|boundaries| - 1];
  }

  function CutAt(boundaries: seq<nat>, pos: nat): seq<nat> {
    var next: nat := pos + 1;
    boundaries + [pos, next]
  }

  lemma PairsTwice(boundaries: seq<nat>, pos: nat)
    requires |boundaries| % 2 == 1
    ensures var b := CutAt(boundaries, pos);
            && |b| % 2 == 1 && b[|b| - 1] == pos + 1
            && Pairs(b[..|b| - 1]) == Pairs(boundaries[..|boundaries| - 1]) + [(boundaries[|boundaries| - 1], pos)]
  {
    PairsOnce(boundaries, pos);
    assert CutAt(boundaries, pos)[..|boundaries| + 1] == boundaries + [pos];
  }

  // Both splitters keep a list of finished pieces and the piece being read.

  ghost function Pieces(P: Text -> bool): (seq<Text>, Text) -> bool {
    (args: seq<Text>, text: Text) => IsSplit(args, text, P)
  }

  lemma NothingYet(P: Text -> bool)
    ensures Pieces(P)([[]], [])
  {
    assert Join([[]]) == [];
  }

  lemma PieceGrows(P: Text -> bool, args: seq<Text>, cur: Text, text: Text, c: char)
    requires Pieces(P)(args + [cur], text) && (c == ',' ==> !P(cur))
    ensures Pieces(P)(args + [cur + [c]], text + [c])
  {
    JoinGrows(args, cur, c);
    var before, now := args + [cur], args + [cur + [c]];
    assert before[|args|] == cur && forall i :: 0 <= i < |args| ==> before[i] == args[i] == now[i];
    forall k | 0 <= k < |cur + [c]| && (cur + [c])[k] == ',' ensures !P((cur + [c])[..k]) {
      assert (cur + [c])[..k] == cur[..k];
      assert cur[..|cur|] == cur;
    }
  }

  lemma PieceEnds(P: Text -> bool, args: seq<Text>, cur: Text, text: Text)
    requires Pieces(P)(args + [cur], text) && P(cur)
    ensures Pieces(P)(args + [cur] + [[]], text + [','])
  {
    JoinAppends(args + [cur], []);
  }

  /** Spans cut so far, and the one being read, which runs from the last boundary. */
  ghost function Cutting(code: Text, start: nat): (nat, seq<Span>, nat) -> bool {
    (pos: nat, done: seq<Span>, from: nat) =>
      && start <= from <= pos <= |code| && Tiles(done + [(from, pos)], start, pos)
      && Pieces(InBalance())(Slices(code, done + [(from, pos)]), code[start..pos])
      && After([], code[from..pos]) == After([], code[start..pos])
  }

  lemma SlicesAppend(code: Text, done: seq<Span>, x: Span)
    requires (forall i :: 0 <= i < |done| ==> done[i].0 <= done[i].1 <= |code|) && x.0 <= x.1 <= |code|
    ensures Slices(code, done + [x]) == Slices(code, done) + [code[x.0..x.1]]
  {
  }

  lemma DoneInRange(code: Text, done: seq<Span>, x: Span, start: nat, end: nat)
    requires Tiles(done + [x], start, end) && end <= |code|
    ensures forall i :: 0 <= i < |done| ==> start <= done[i].0 <= done[i].1 <= end
    ensures x.0 <= x.1 == end && x.0 <= |code|
  {
    assert forall i :: 0 <= i < |done| ==> (done + [x])[i] == done[i];
    assert (done + [x])[|done|] == x;
  }

  lemma TilesGrow(done: seq<Span>, from: nat, start: nat, pos: nat)
    requires Tiles(done + [(from, pos)], start, pos)
    ensures Tiles(done + [(from, pos + 1)], start, pos + 1)
    ensures Tiles(done + [(from, pos)] + [(pos + 1, pos + 1)], start, pos + 1)
  {
    assert forall i :: 0 <= i < |done| ==> (done + [(from, pos)])[i] == done[i];
    assert (done + [(from, pos)])[|done|] == (from, pos);
  }

  lemma CutLater(code: Text, start: nat, pos: nat, done: seq<Span>, from: nat)
    requires Cutting(code, start)(pos, done, from) && pos < |code|
    requires code[pos] == ',' ==> After([], code[start..pos]) != Some([])
    ensures Cutting(code, start)(pos + 1, done, from)
  {
    DoneInRange(code, done, (from, pos), start, pos);
    TilesGrow(done, from, start, pos);
    SlicesAppend(code, done, (from, pos));
    SlicesAppend(code, done, (from, pos + 1));
    BalancedExactly(code[from..pos]);
    PieceGrows(InBalance(), Slices(code, done), code[from..pos], code[start..pos], code[pos]);
    OneMore(code, from, pos);
    OneMore(code, start, pos);
  }

  lemma CutHere(code: Text, start: nat, pos: nat, done: seq<Span>, from: nat)
    requires Cutting(code, start)(pos, done, from) && pos < |code| && code[pos] == ','
    requires After([], code[start..pos]) == Some([])
    ensures Cutting(code, start)(pos + 1, done + [(from, pos)], pos + 1)
  {
    TilesGrow(done, from, start, pos);
    PiecesAfterCut(code, start, pos, done, from);
    OneMore(code, start, pos);
    assert code[pos + 1..pos + 1] == [];
  }

  lemma PiecesAfterCut(code: Text, start: nat, pos: nat, done: seq<Span>, from: nat)
    requires Cutting(code, start)(pos, done, from) && pos < |code| && code[pos] == ','
    requires After([], code[start..pos]) == Some([])
    ensures Tiles(done + [(from, pos)] + [(pos + 1, pos + 1)], start, pos + 1)
    ensures Pieces(InBalance())(Slices(code, done + [(from, pos)] + [(pos + 1, pos + 1)]), code[start..pos + 1])
  {
    DoneInRange(code, done, (from, pos), start, pos);
    TilesGrow(done, from, start, pos);
    SlicesAppend(code, done, (from, pos));
    SlicesAppend(code, done + [(from, pos)], (pos + 1, pos + 1));
    BalancedExactly(code[from..pos]);
    PieceEnds(InBalance(), Slices(code, done), code[from..pos], code[start..pos]);
    OneMore(code, start, pos);
    assert code[pos + 1..pos + 1] == [];
  }

  lemma OneMore(code: Text, from: nat, pos: nat)
    requires from <= pos < |code|
    ensures code[from..pos + 1] == code[from..pos] + [code[pos]]
    ensures forall stack :: After(stack, code[from..pos + 1]) ==
                       match After(stack, code[from..pos]) case None => None case Some(s) => Read(s, code[pos])
  {
    assert code[from..pos + 1][..pos - from] == code[from..pos];
  }

  /** A stack of one, above which everything has been closed. */
  lemma AloneOnStack(code: Text, start: nat, pos: nat, stack: Text)
    requires start <= pos <= |code| && NothingClosed(code, start, pos)
    requires After([')'], code[start..pos]) == Some(stack) && stack != []
    ensures |stack| == 1 <==> After([], code[start..pos]) == Some([])
  {
    var t := code[start..pos];
    var k := BottomStays(')', t);
    if k < |t| {
      ClosedThere(code, start, pos, k);
      assert false;
    }
  }

  lemma ClosedThere(code: Text, start: nat, pos: nat, k: nat)
    requires start + k < pos <= |code| && code[start + k] == ')' && After([], code[start..pos][..k]) == Some([])
    ensures ClosesAt(code, start, start + k)
  {
    assert code[start..pos][..k] == code[start..start + k];
    BalancedExactly(code[start..start + k]);
  }

  /** No call closes when the text ends, or a closer does not match, before the stack is empty. */
  lemma NeverCloses(code: Text, start: nat, pos: nat)
    requires start <= pos <= |code| && NothingClosed(code, start, pos)
    requires pos < |code| ==> !ClosesAt(code, start, pos) && After([')'], code[start..pos + 1]) == None
    ensures forall e :: !ClosesAt(code, start, e)
  {
    forall e ensures !ClosesAt(code, start, e) {
      if ClosesAt(code, start, e) {
        StillOpen(code, start, e, pos + 1);
        assert false;
      }
    }
  }

  /** What the loop knows with the given stack and boundaries at pos. */
  ghost function Scanned(code: Text, start: nat): (nat, Text, seq<nat>) -> bool {
    (pos: nat, stack: Text, boundaries: seq<nat>) =>
      && start <= pos <= |code| && |boundaries| % 2 == 1
      && var done, from := Pairs(boundaries[..|boundaries| - 1]), boundaries[|boundaries| - 1];
      if stack == [] then
        pos > start && ClosesAt(code, start, pos - 1) && Cutting(code, start)(pos - 1, done, from)
      else
        NothingClosed(code, start, pos) && After([')'], code[start..pos]) == Some(stack)
            && Cutting(code, start)(pos, done, from)
  }

  lemma ScanStarts(code: Text, start: nat)
    requires start <= |code|
    ensures Scanned(code, start)(start, [')'], [start])
  {
    assert code[start..start] == [] && [start][..0] == [];
    assert [] + [(start, start)] == [(start, start)];
    assert Slices(code, [(start, start)]) == [[]];
    NothingYet(InBalance());
    assert Pieces(InBalance())(Slices(code, [] + [(start, start)]), code[start..start]);
    ScanGoesOn(code, start, start, [')'], [start], [], start);
  }

  lemma ScanGoesOn(code: Text, start: nat, pos: nat, stack: Text, boundaries: seq<nat>, done: seq<Span>, from: nat)
    requires start <= pos <= |code| && stack != [] && NothingClosed(code, start, pos)
             && After([')'], code[start..pos]) == Some(stack)
    requires |boundaries| % 2 == 1 && Pairs(boundaries[..|boundaries| - 1]) == done
             && boundaries[|boundaries| - 1] == from
    requires Cutting(code, start)(pos, done, from)
    ensures Scanned(code, start)(pos, stack, boundaries)
  {
  }

  lemma ScanStep(code: Text, start: nat, pos: nat, stack: Text, boundaries: seq<nat>, next: Text)
    requires Scanned(code, start)(pos, stack, boundaries) && pos < |code| && stack != []
    requires Read(stack, code[pos]) == Some(next)
    ensures Scanned(code, start)(pos + 1, next, if code[pos] == ','
                                 && |stack| == 1 then CutAt(boundaries, pos) else boundaries)
  {
    OneMore(code, start, pos);
    if next == [] {
      EmptiesWhereItCloses(code, start, pos, stack);
    } else {
      NotClosedHere(code, start, pos, next);
      AloneOnStack(code, start, pos, stack);
      if code[pos] == ',' && |stack| == 1 {
        ScanCuts(code, start, pos, stack, boundaries, next);
      } else {
        ScanKeeps(code, start, pos, stack, boundaries, next);
      }
    }
  }

  lemma ScanCuts(code: Text, start: nat, pos: nat, stack: Text, boundaries: seq<nat>, next: Text)
    requires Scanned(code, start)(pos, stack, boundaries) && pos < |code| && stack != []
    requires NothingClosed(code, start, pos + 1) && next != [] && After([')'], code[start..pos + 1]) == Some(next)
    requires code[pos] == ',' && After([], code[start..pos]) == Some([])
    ensures Scanned(code, start)(pos + 1, next, CutAt(boundaries, pos))
  {
    var done, from := Pairs(boundaries[..|boundaries| - 1]), boundaries[|boundaries| - 1];
    CutHere(code, start, pos, done, from);
    PairsTwice(boundaries, pos);
    ScanGoesOn(code, start, pos + 1, next, CutAt(boundaries, pos), done + [(from, pos)], pos + 1);
  }

  lemma ScanKeeps(code: Text, start: nat, pos: nat, stack: Text, boundaries: seq<nat>, next: Text)
    requires Scanned(code, start)(pos, stack, boundaries) && pos < |code| && stack != []
    requires NothingClosed(code, start, pos + 1) && next != [] && After([')'], code[start..pos + 1]) == Some(next)
    requires code[pos] == ',' ==> After([], code[start..pos]) != Some([])
    ensures Scanned(code, start)(pos + 1, next, boundaries)
  {
    var done, from := Pairs(boundaries[..|boundaries| - 1]), boundaries[|boundaries| - 1];
    CutLater(code, start, pos, done, from);
    ScanGoesOn(code, start, pos + 1, next, boundaries, done, from);
  }

  lemma ScanFails(code: Text, start: nat, pos: nat, stack: Text, boundaries: seq<nat>)
    requires Scanned(code, start)(pos, stack, boundaries) && stack != []
    requires pos < |code| ==> Read(stack, code[pos]) == None
    ensures NeverClosed(code, start)
  {
    if pos < |code| {
      OneMore(code, start, pos);
      MismatchIsNoEnd(code, start, pos);
    }
    NeverCloses(code, start, pos);
  }

  lemma MismatchIsNoEnd(code: Text, start: nat, pos: nat)
    requires start <= pos < |code| && After([')'], code[start..pos + 1]) == None
    ensures !ClosesAt(code, start, pos)
  {
    OneMore(code, start, pos);
    if ClosesAt(code, start, pos) { StillOpen(code, start, pos, pos); }
  }

  ghost predicate NeverClosed(code: Text, start: nat) {
    forall e :: !ClosesAt(code, start, e)
  }

  /** A call that runs up to end, with its closing parenthesis just before, and has the given argument spans. */
  ghost function CallFrom(code: Text, start: nat): ((nat, seq<Span>)) -> bool {
    (call: (nat, seq<Span>)) =>
      call.0 > start && ClosesAt(code, start, call.0 - 1) && ArgumentsOf(code, start, call.0 - 1, call.1)
  }

  lemma ScanEnds(code: Text, start: nat, pos: nat, boundaries: seq<nat>)
    requires Scanned(code, start)(pos, [], boundaries)
    ensures pos > 0 && CallFrom(code, start)((pos, Pairs(boundaries + [pos - 1])))
            && Within(Pairs(boundaries + [pos - 1]), |code|)
  {
    var done, from, end: nat := Pairs(boundaries[..|boundaries| - 1]), boundaries[|boundaries| - 1], pos - 1;
    var pairs := done + [(from, end)];
    PairsOnce(boundaries, end);
    CuttingEnds(code, start, end, done, from);
  }

  lemma CuttingEnds(code: Text, start: nat, end: nat, done: seq<Span>, from: nat)
    requires Cutting(code, start)(end, done, from)
    ensures ArgumentsOf(code, start, end, done + [(from, end)]) && Within(done + [(from, end)], |code|)
  {
    var pairs := done + [(from, end)];
    assert start <= end <= |code|;
    assert Tiles(pairs, start, end);
    assert Pieces(InBalance())(Slices(code, pairs), code[start..end]);
    assert IsSplit(Slices(code, pairs), code[start..end], InBalance());
  }

  /** Reads one call from just after its opening parenthesis; the result is the end and the argument spans. */
  method SplitCall(code: Text, start: nat) returns (call: Option<(nat, seq<Span>)>)
    requires start <= |code|
    ensures call == None ==> NeverClosed(code, start)
    ensures call.Some? ==> CallFrom(code, start)(call.value) && Within(call.value.1, |code|)
  {
    var stack: Text := [')'];
    var boundaries: seq<nat> := [start];
    var pos := start;
    ScanStarts(code, start);
    while pos < |code| && stack != []
      invariant start <= pos <= |code|
      invariant Scanned(code, start)(pos, stack, boundaries)
      decreases |code| - pos
    {
      var c := code[pos];
      ghost var was, cuts := stack, boundaries;
      if Opens(c) {
        stack := stack + [CloserOf(c)];
      } else if Closes(c) {
        if c != stack[|stack| - 1] {
          ScanFails(code, start, pos, stack, boundaries);
          return None;
        }
        stack := stack[..|stack| - 1];
      } else if c == ',' && |stack| == 1 {
        boundaries := CutAt(boundaries, pos);
      }
      ScanStep(code, start, pos, was, cuts, stack);
      pos := pos + 1;
    }
    if stack != [] {
      ScanFails(code, start, pos, stack, boundaries);
      return None;
    }
    ScanEnds(code, start, pos, boundaries);
    boundaries := boundaries + [pos - 1];
    return Some((pos, Pairs(boundaries)));
  }

  /** Spans that tile the same stretch and cut out the same texts are the same. */
  lemma {:induction false} SameSpans(code: Text, start: nat, end: nat, a: seq<Span>, b: seq<Span>, n: nat)
    requires Tiles(a, start, end) && Tiles(b, start, end) && end <= |code|
    requires Slices(code, a) == Slices(code, b) && n <= |a| == |b|
    ensures a[..n] == b[..n]
    decreases n
  {
    if n > 0 {
      SameSpans(code, start, end, a, b, n - 1);
      assert n > 1 ==> a[..n - 1][n - 2] == a[n - 2] && b[..n - 1][n - 2] == b[n - 2];
      assert |Slices(code, a)[n - 1]| == |Slices(code, b)[n - 1]|;
      assert a[n - 1] == b[n - 1];
    }
  }

  /** There is only one end and one list of spans that a call can have. */
  lemma CallIsDetermined(code: Text, start: nat, a: (nat, seq<Span>), b: (nat, seq<Span>))
    requires CallFrom(code, start)(a) && CallFrom(code, start)(b)
    ensures a == b
  {
    var end: nat := a.0 - 1;
    ClosesOnce(code, start, a.0 - 1, b.0 - 1);
    assert ArgumentsOf(code, start, end, a.1) && ArgumentsOf(code, start, end, b.1);
    SplitIsUnique(Slices(code, a.1), Slices(code, b.1), code[start..end], InBalance());
    AllSameSpans(code, start, end, a.1, b.1);
  }

  lemma AllSameSpans(code: Text, start: nat, end: nat, a: seq<Span>, b: seq<Span>)
    requires Tiles(a, start, end) && Tiles(b, start, end) && end <= |code| && Slices(code, a) == Slices(code, b)
    ensures a == b
  {
    assert |Slices(code, a)| == |a| && |Slices(code, b)| == |b|;
    SameSpans(code, start, end, a, b, |a|);
    assert a[..|a|] == a && b[..|a|] == b;
  }

  lemma NotClosedHere(code: Text, start: nat, pos: nat, stack: Text)
    requires start <= pos < |code| && NothingClosed(code, start, pos)
    requires After([')'], code[start..pos + 1]) == Some(stack) && stack != []
    ensures NothingClosed(code, start, pos + 1)
  {
    assert code[start..pos + 1][..pos - start] == code[start..pos];
    if ClosesAt(code, start, pos) {
      StillOpen(code, start, pos, pos);
      assert false;
    }
  }

  datatype CallSite = CallSite(operation: Text, offset: nat, end: nat, args: seq<Text>, codeArgs: seq<Text>)

  predicate IsSpace(c: char) {
    || '\t' <= c <= '\r' || '\U{1C}' <= c <= ' ' || c == '\U{85}' || c == '\U{A0}' || c == '\U{1680}'
    || '\U{2000}' <= c <= '\U{200A}' || c == '\U{2028}' || c == '\U{2029}' || c == '\U{202F}' || c == '\U{205F}'
       || c == '\U{3000}'
  }

  predicate Blank(t: Text) {
    forall i :: 0 <= i < |t| ==> IsSpace(t[i])
  }

  function Strip(t: Text): Text {
    Trim(t, IsSpace)
  }

  function Trim(t: Text, space: char -> bool): Text {
    if t == [] then []
    else if space(t[0]) then Trim(t[1..], space)
    else if space(t[|t| - 1]) then Trim(t[..|t| - 1], space)
    else t
  }

  /** Trimming drops white space at both ends and nothing else. */
  lemma {:induction false} TrimsEnds(t: Text, space: char -> bool) returns (i: nat, j: nat)
    ensures i <= j <= |t| && Trim(t, space) == t[i..j]
    ensures forall k :: 0 <= k < i || j <= k < |t| ==> space(t[k])
    ensures i < j ==> !space(t[i]) && !space(t[j - 1])
    decreases |t|
  {
    if t == [] {
      i, j := 0, 0;
    } else if space(t[0]) {
      i, j := TrimsEnds(t[1..], space);
      i, j := i + 1, j + 1;
      assert forall k :: 1 <= k < |t| ==> t[k] == t[1..][k - 1];
    } else if space(t[|t| - 1]) {
      i, j := TrimsEnds(t[..|t| - 1], space);
      assert forall k :: 0 <= k < |t| - 1 ==> t[k] == t[..|t| - 1][k];
    } else {
      i, j := 0, |t|;
    }
  }

  lemma StripsToNothing(t: Text)
    ensures Strip(t) == [] <==> Blank(t)
  {
    var i, j := TrimsEnds(t, IsSpace);
  }

  function Stripped(texts: seq<Text>): seq<Text> {
    seq(|texts|, i requires 0 <= i < |texts| => Strip(texts[i]))
  }

  /** What one operation match in the masked code yields, if its call closes. */
  ghost predicate SiteOf(source: Text, code: Text, m: Span, site: CallSite, isCall: ((nat, seq<Span>)) -> bool)
    requires |source| == |code| && m.0 < m.1 <= |code|
  {
    && site.operation == Strip(code[m.0..m.1 - 1]) && site.offset == m.0 && m.1 < site.end <= |code|
    && exists pairs ::
           isCall((site.end, pairs)) && Within(pairs, |code|) && SiteArguments(source, code, m.1, site, pairs)
  }

  ghost predicate SiteArguments(source: Text, code: Text, start: nat, site: CallSite, pairs: seq<Span>)
    requires |source| == |code| && start < site.end <= |code| && Within(pairs, |code|)
  {
    if Strip(code[start..site.end - 1]) == [] then site.args == [] && site.codeArgs == []
    else site.codeArgs == Stripped(Slices(code, pairs)) && site.args == Stripped(Slices(source, pairs))
  }

  ghost function Yields(source: Text, code: Text): (Span, CallSite) -> bool
    requires |source| == |code|
  {
    (m: Span, site: CallSite) => m.0 < m.1 <= |code| && SiteOf(source, code, m, site, CallFrom(code, m.1))
  }

  /** The matches whose call closes. */
  ghost function Closing(code: Text, matches: seq<Span>): (r: seq<Span>)
    ensures forall m :: m in r <==> m in matches && !NeverClosed(code, m.1)
  {
    if matches == [] then []
    else
      var m := matches[|matches| - 1];
      Closing(code, matches[..|matches| - 1]) + (if NeverClosed(code, m.1) then [] else [m])
  }

  lemma CallExtent(code: Text, start: nat, end: nat, pairs: seq<Span>)
    requires CallFrom(code, start)((end, pairs))
    ensures start < end <= |code| && !NeverClosed(code, start) && (Strip(code[start..end - 1]) == [] ==> |pairs| == 1)
  {
    assert ClosesAt(code, start, end - 1);
    StripsToNothing(code[start..end - 1]);
    if Blank(code[start..end - 1]) { FirstPiece(Slices(code, pairs), code[start..end - 1], InBalance()); }
  }

  lemma SiteBuilt(source: Text, code: Text, m: Span, end: nat, pairs: seq<Span>, isCall: ((nat, seq<Span>)) -> bool)
    requires |source| == |code| && m.0 < m.1 < end <= |code| && isCall((end, pairs)) && Within(pairs, |code|)
    requires Strip(code[m.1..end - 1]) == [] ==> |pairs| == 1
    ensures var kept := if |pairs| == 1 && Strip(code[m.1..end - 1]) == [] then [] else pairs;
            var site := CallSite(Strip(code[m.0..m.1 - 1]), m.0, end, Stripped(Slices(source, kept)),
                                 Stripped(Slices(code, kept)));
            SiteOf(source, code, m, site, isCall)
  {
    var kept := if |pairs| == 1 && Strip(code[m.1..end - 1]) == [] then [] else pairs;
    var site := CallSite(Strip(code[m.0..m.1 - 1]), m.0, end, Stripped(Slices(source, kept)),
                         Stripped(Slices(code, kept)));
    assert SiteArguments(source, code, m.1, site, pairs);
  }

  method SiteAt(source: Text, code: Text, m: Span) returns (site: Option<CallSite>)
    requires |source| == |code| && m.0 < m.1 <= |code|
    ensures site == None <==> NeverClosed(code, m.1)
    ensures site.Some? ==> Yields(source, code)(m, site.value)
  {
    var call := SplitCall(code, m.1);
    if call == None {
      return None;
    }
    var end, pairs := call.value.0, call.value.1;
    CallExtent(code, m.1, end, pairs);
    SiteBuilt(source, code, m, end, pairs, CallFrom(code, m.1));
    if |pairs| == 1 && Strip(code[m.1..end - 1]) == [] {
      pairs := [];
    }
    return Some(CallSite(Strip(code[m.0..m.1 - 1]), m.0, end, Stripped(Slices(source, pairs)),
                         Stripped(Slices(code, pairs))));
  }

  method CallSites(source: Text, code: Text, matches: seq<Span>) returns (sites: seq<CallSite>)
    requires |source| == |code|
    requires forall i :: 0 <= i < |matches| ==> matches[i].0 < matches[i].1 <= |code| && code[matches[i].1 - 1] == '('
    ensures |sites| == |Closing(code, matches)|
    ensures forall i :: 0 <= i < |sites| ==> Yields(source, code)(Closing(code, matches)[i], sites[i])
  {
    sites := [];
    for n := 0 to |matches|
      invariant |sites| == |Closing(code, matches[..n])|
      invariant forall i :: 0 <= i < |sites| ==> Yields(source, code)(Closing(code, matches[..n])[i], sites[i])
    {
      assert matches[..n + 1][..n] == matches[..n];
      var site := SiteAt(source, code, matches[n]);
      if site.Some? {
        sites := sites + [site.value];
      }
    }
    assert matches[..|matches|] == matches;
  }

  // ----- the counting splitter -----

  method CallEnd(masked: Text, openParen: nat) returns (end: Option<nat>)
    ensures end.Some? ==> CountsDownAt(masked, openParen, end.value)
    ensures end == None ==> forall i :: !CountsDownAt(masked, openParen, i)
  {
    var depth := 0;
    var i := openParen;
    while i < |masked|
      invariant openParen <= i
      invariant i <= |masked| ==> depth == ParenDepth(masked[openParen..i])
      invariant forall j :: openParen <= j < i && j < |masked| && masked[j] == ')' ==>
                ParenDepth(masked[openParen..j + 1]) != 0
    {
      assert masked[openParen..i + 1][..i - openParen] == masked[openParen..i];
      if masked[i] == '(' {
        depth := depth + 1;
      } else if masked[i] == ')' {
        depth := depth - 1;
        if depth == 0 { return Some(i); }
      }
      i := i + 1;
    }
    return None;
  }

  ghost function Counted(masked: Text, start: nat): (nat, seq<Text>, nat, int) -> bool {
    (i: nat, args: seq<Text>, argStart: nat, depth: int) =>
      && start <= argStart <= i <= |masked|
      && depth == Depth(masked[start..i]) == Depth(masked[argStart..i])
      && Pieces(InDepth())(args + [masked[argStart..i]], masked[start..i])
  }

  lemma CountStarts(masked: Text, start: nat)
    requires start <= |masked|
    ensures Counted(masked, start)(start, [], start, 0)
  {
    assert masked[start..start] == [] && [] + [masked[start..start]] == [[]];
    NothingYet(InDepth());
  }

  lemma CountStep(masked: Text, start: nat, i: nat, args: seq<Text>, argStart: nat, depth: int)
    requires Counted(masked, start)(i, args, argStart, depth) && i < |masked|
    ensures var c := masked[i];
            if c == ',' && depth == 0 then Counted(masked, start)(i + 1, args + [masked[argStart..i]], i + 1, depth)
            else Counted(masked, start)(i + 1, args, argStart,
                                        if Opens(c) then depth + 1 else if Closes(c) then depth - 1 else depth)
  {
    if masked[i] == ',' && depth == 0 {
      CountComma(masked, start, i, args, argStart);
    } else {
      CountOther(masked, start, i, args, argStart, depth);
    }
  }

  lemma CountComma(masked: Text, start: nat, i: nat, args: seq<Text>, argStart: nat)
    requires Counted(masked, start)(i, args, argStart, 0) && i < |masked| && masked[i] == ','
    ensures Counted(masked, start)(i + 1, args + [masked[argStart..i]], i + 1, 0)
  {
    OneDeeper(masked, start, i);
    PieceEnds(InDepth(), args, masked[argStart..i], masked[start..i]);
    assert masked[i + 1..i + 1] == [];
  }

  lemma CountOther(masked: Text, start: nat, i: nat, args: seq<Text>, argStart: nat, depth: int)
    requires Counted(masked, start)(i, args, argStart, depth) && i < |masked| && !(masked[i] == ',' && depth == 0)
    ensures var c := masked[i];
            Counted(masked, start)(i + 1, args, argStart, if Opens(c) then depth
                                   + 1 else if Closes(c) then depth - 1 else depth)
  {
    OneDeeper(masked, start, i);
    OneDeeper(masked, argStart, i);
    PieceGrows(InDepth(), args, masked[argStart..i], masked[start..i], masked[i]);
  }

  method Arguments(masked: Text, start: nat, end: nat) returns (args: seq<Text>)
    requires start < end <= |masked|
    ensures IsSplit(args, masked[start + 1..end], InDepth())
  {
    args := [];
    var argStart, depth := start + 1, 0;
    CountStarts(masked, start + 1);
    for i := start + 1 to end
      invariant start + 1 <= argStart <= i
      invariant Counted(masked, start + 1)(i, args, argStart, depth)
    {
      var c := masked[i];
      CountStep(masked, start + 1, i, args, argStart, depth);
      if Opens(c) {
        depth := depth + 1;
      } else if Closes(c) {
        depth := depth - 1;
      } else if c == ',' && depth == 0 {
        args := args + [masked[argStart..i]];
        argStart := i + 1;
      }
    }
    args := args + [masked[argStart..end]];
    assert Pieces(InDepth())(args, masked[start + 1..end]);
  }

  lemma OneDeeper(code: Text, from: nat, pos: nat)
    requires from <= pos < |code|
    ensures code[from..pos + 1] == code[from..pos] + [code[pos]]
    ensures Depth(code[from..pos + 1]) ==
            Depth(code[from..pos]) + if Opens(code[pos]) then 1 else if Closes(code[pos]) then -1 else 0
  {
    assert code[from..pos + 1][..pos - from] == code[from..pos];
  }
}
