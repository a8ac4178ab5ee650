/**
 Line numbers counted incrementally while walking over matches, and the bounded scanner for @HTTP annotations.
 */
module LineNumbers {
  import opened Wrappers
  import opened Collections
  import opened CommentMasks

  function Newlines(t: Text): nat {
    if t == [] then 0 else Newlines(t[..|t| - 1]) + if t[|t| - 1] == '\n' then 1 else 0
  }

  /** It is the number of places where a line feed stands. */
  lemma {:induction false} NewlinesCounted(t: Text)
    ensures Newlines(t) == |set i | 0 <= i < |t| && t[i] == '\n'|
    decreases |t|
  {
    if t != [] {
      var n := |t| - 1;
      var all, before := set i | 0 <= i < |t| && t[i] == '\n', set i | 0 <= i < n && t[..n][i] == '\n';
      NewlinesCounted(t[..n]);
      assert all == before + if t[n] == '\n' then {n} else {};
    }
  }

  /** One plus the line breaks before k. */
  function LineOf(content: Text, k: nat): nat
    requires k <= |content|
  {
    1 + Newlines(content[..k])
  }

  function Between(content: Text, a: nat, b: nat): nat
    requires a <= b <= |content|
  {
    Newlines(content[a..b])
  }

  lemma {:induction false} NewlinesJoined(a: Text, b: Text)
    ensures Newlines(a + b) == Newlines(a) + Newlines(b)
    decreases |b|
  {
    if b == [] {
      assert a + b == a;
    } else {
      assert (a + b)[..|a + b| - 1] == a + b[..|b| - 1];
      NewlinesJoined(a, b[..|b| - 1]);
    }
  }

  lemma LineMoves(content: Text, a: nat, b: nat)
    requires a <= b <= |content|
    ensures LineOf(content, b) == LineOf(content, a) + Between(content, a, b)
  {
    assert content[..b] == content[..a] + content[a..b];
    NewlinesJoined(content[..a], content[a..b]);
  }

  /** Masking comments does not move any line. */
  lemma {:induction false} LinesSurviveMasking(style: Style, s: Text, k: nat)
    requires k <= |s|
    ensures LineOf(Mask(style, s), k) == LineOf(s, k)
    decreases k
  {
    var m := Mask(style, s);
    if k > 0 {
      LinesSurviveMasking(style, s, k - 1);
      assert m[..k][..k - 1] == m[..k - 1] && s[..k][..k - 1] == s[..k - 1];
    } else {
      assert m[..0] == [] == s[..0];
    }
  }

  type Span = (nat, nat)

  ghost predicate InOrder(content: Text, matches: seq<Span>) {
    && (forall i :: 0 <= i < |matches| ==> matches[i].0 <= matches[i].1 <= |content|)
    && (forall i :: 0 < i < |matches| ==> matches[i - 1].1 <= matches[i].0)
  }

  method MatchesWithLineNumbers(content: Text, matches: seq<Span>) returns (lines: seq<nat>)
    requires InOrder(content, matches)
    ensures |lines| == |matches| && forall i :: 0 <= i < |lines| ==> lines[i] == LineOf(content, matches[i].0)
  {
    lines := [];
    var offset: nat, lineNumber: nat := 0, 1;
    for n := 0 to |matches|
      invariant |lines| == n && forall i :: 0 <= i < n ==> lines[i] == LineOf(content, matches[i].0)
      invariant offset <= |content| && lineNumber == LineOf(content, offset)
      invariant offset == if n == 0 then 0 else matches[n - 1].1
    {
      var m := matches[n];
      LineMoves(content, offset, m.0);
      LineMoves(content, m.0, m.1);
      lineNumber := lineNumber + Between(content, offset, m.0);
      lines := lines + [lineNumber];
      lineNumber := lineNumber + Between(content, m.0, m.1);
      offset := m.1;
    }
  }

  // ----- the @HTTP scanner -----

  const MAX_ANNOTATION_CHARS: nat := 4096
  const MARKER: Text := "@HTTP"

  /** The marker followed by no further word character. */
  predicate MarkerAt(content: Text, i: nat, isWord: char -> bool) {
    At(content, i, MARKER) && (i + 5 < |content| ==> !isWord(content[i + 5]))
  }

  /** The quote that is open before k, and whether the character at k is escaped. */
  function Quoted(content: Text, from: nat, k: nat): (Option<char>, bool)
    requires from <= k <= |content|
    decreases k
  {
    if k == from then (None, false)
    else
      var (quote, escaped) := Quoted(content, from, k - 1);
      var c := content[k - 1];
      if quote.Some? then
        if escaped then (quote, false)
        else if c == '\\' then (quote, true)
        else if c == quote.value then (None, false)
        else (quote, false)
      else if c == '"' || c == '\'' then (Some(c), false)
      else (None, false)
  }

  /** Parentheses open before k, outside quotes, when one is open at from. */
  function OpenParens(content: Text, from: nat, k: nat): int
    requires from <= k <= |content|
    decreases k
  {
    if k == from then 1
    else
      OpenParens(content, from, k - 1)
      + if Quoted(content, from, k - 1).0.Some? then 0
        else if content[k - 1] == '(' then 1
        else if content[k - 1] == ')' then -1
        else 0
  }

  /** The unquoted parenthesis at k closes the one open at from. */
  predicate ClosesBody(content: Text, from: nat, k: nat)
    requires from <= k < |content|
  {
    content[k] == ')' && Quoted(content, from, k).0.None? && OpenParens(content, from, k) == 1
  }

  ghost predicate FirstClose(content: Text, from: nat, limit: nat, close: Option<nat>)
    requires from <= limit <= |content|
  {
    match close
    case Some(k) => from <= k < limit && ClosesBody(content, from, k) && forall j :: from <= j < k ==>
        !ClosesBody(content, from, j)
    case None => forall j :: from <= j < limit ==> !ClosesBody(content, from, j)
  }

  method FindClose(content: Text, bodyStart: nat, scanLimit: nat) returns (close: Option<nat>)
    requires bodyStart <= scanLimit <= |content|
    ensures FirstClose(content, bodyStart, scanLimit, close)
  {
    var depth := 1;
    var quote: Option<char>, escaped := None, false;
    for index := bodyStart to scanLimit
      invariant (quote, escaped) == Quoted(content, bodyStart, index)
      invariant depth == OpenParens(content, bodyStart, index)
      invariant forall j :: bodyStart <= j < index ==> !ClosesBody(content, bodyStart, j)
    {
      var c := content[index];
      if quote.Some? {
        if escaped {
          escaped := false;
        } else if c == '\\' {
          escaped := true;
        } else if c == quote.value {
          quote := None;
        }
        continue;
      }
      if c == '"' || c == '\'' {
        quote := Some(c);
      } else if c == '(' {
        depth := depth + 1;
      } else if c == ')' {
        depth := depth - 1;
        if depth == 0 {
          return Some(index);
        }
      }
    }
    return None;
  }

  /** The quote state is escaped only inside a quote. */
  lemma {:induction false} EscapedOnlyInside(content: Text, from: nat, k: nat)
    requires from <= k <= |content|
    ensures Quoted(content, from, k).1 ==> Quoted(content, from, k).0.Some?
    decreases k
  {
    if k > from { EscapedOnlyInside(content, from, k - 1); }
  }

  datatype Found = NoBody | Unclosed | Body(text: Text)

  /** One marker: where it starts, where scanning goes on, its line, and what follows it. */
  datatype Visit = Visit(start: nat, end: nat, line: nat, found: Found)

  function Spaces(content: Text, position: nat, start: nat, isSpace: char -> bool): (r: nat)
    requires start <= position <= |content|
    ensures position <= r <= |content|
    decreases |content| - position
  {
    if position < |content| && isSpace(content[position]) && position - start <= 64 then
      Spaces(content, position + 1, start, isSpace)
    else position
  }

  ghost predicate IsVisit(content: Text, v: Visit, isWord: char -> bool, isSpace: char -> bool) {
    && MarkerAt(content, v.start, isWord) && v.line == LineOf(content, v.start)
    && v.start < v.end <= |content|
    && var position := Spaces(content, v.start + 5, v.start, isSpace);
      if position >= |content| || content[position] != '(' then v.found == NoBody && v.end == v.start + 5
      else
        var body := position + 1;
        var limit := Min(|content|, body + MAX_ANNOTATION_CHARS);
        match v.found
        case NoBody => false
        case Unclosed => v.end == limit && FirstClose(content, body, limit, None)
        case Body(text) =>
               body < v.end && FirstClose(content, body, limit, Some(v.end - 1)) && text == content[body..v.end - 1]
  }

  ghost function Visits(content: Text, isWord: char -> bool, isSpace: char -> bool): Visit -> bool {
    (v: Visit) => IsVisit(content, v, isWord, isSpace) && v.start < v.end
  }

  ghost function Markers(content: Text, isWord: char -> bool): nat -> bool {
    (k: nat) => MarkerAt(content, k, isWord)
  }

  /** The markers before cursor are visited, or lie inside what a visit went over; visits do not overlap. */
  ghost predicate Covered(visits: seq<Visit>, cursor: nat, isMarker: nat -> bool, isVisit: Visit -> bool) {
    && (forall i :: 0 <= i < |visits| ==> isVisit(visits[i]) && visits[i].end <= cursor)
    && (forall i :: 0 < i < |visits| ==> visits[i - 1].end <= visits[i].start)
    && (forall k :: 0 <= k < cursor && isMarker(k) ==> exists v :: v in visits && v.start <= k < v.end)
  }

  /** What is yielded for a body: its method and path, if both are there. */
  function Declaration(v: Visit, methodIn: Text -> Option<Text>, pathIn: Text -> Option<Text>): Option<(Text, Text,
      nat)> {
    if v.found.Body? && methodIn(v.found.text).Some? && pathIn(v.found.text).Some?
    then Some((methodIn(v.found.text).value, pathIn(v.found.text).value, v.line))
    else None
  }

  ghost function Declarations(visits: seq<Visit>, methodIn: Text -> Option<Text>,
                              pathIn: Text -> Option<Text>): seq<(Text, Text, nat)> {
    if visits == [] then []
    else
      var last := visits[|visits| - 1];
      Declarations(visits[..|visits| - 1], methodIn, pathIn)
      + if Declaration(last, methodIn, pathIn).Some? then [Declaration(last, methodIn, pathIn).value] else []
  }

  ghost function HowMany(visits: seq<Visit>, p: Visit -> bool): nat {
    if visits == [] then 0 else HowMany(visits[..|visits| - 1], p) + if p(visits[|visits| - 1]) then 1 else 0
  }

  method FindMarker(content: Text, cursor: nat, isWord: char -> bool) returns (start: Option<nat>)
    requires cursor <= |content|
    ensures match start
            case Some(i) => i >= cursor && MarkerAt(content, i, isWord) && forall k :: cursor <= k < i ==>
                !MarkerAt(content, k, isWord)
            case None => forall k :: cursor <= k ==> !MarkerAt(content, k, isWord)
  {
    for i := cursor to |content|
      invariant forall k :: cursor <= k < i ==> !MarkerAt(content, k, isWord)
    {
      if MarkerAt(content, i, isWord) {
        return Some(i);
      }
    }
    return None;
  }

  method SkipSpaces(content: Text, from: nat, start: nat, isSpace: char -> bool) returns (position: nat)
    requires start <= from <= |content|
    ensures position == Spaces(content, from, start, isSpace)
  {
    position := from;
    while position < |content| && isSpace(content[position]) && position - start <= 64
      invariant from <= position <= |content| && Spaces(content, position, start, isSpace)
                == Spaces(content, from, start, isSpace)
    {
      position := position + 1;
    }
  }

  method VisitMarker(content: Text, start: nat, startLine: nat, isWord: char -> bool, isSpace: char -> bool)
      returns (v: Visit)
    requires MarkerAt(content, start, isWord) && startLine == LineOf(content, start)
    ensures Visits(content, isWord, isSpace)(v) && v.start == start < v.end <= |content| && v.line == startLine
  {
    var position := SkipSpaces(content, start + 5, start, isSpace);
    if position >= |content| || content[position] != '(' {
      return Visit(start, start + 5, startLine, NoBody);
    }
    var bodyStart := position + 1;
    var scanLimit := Min(|content|, bodyStart + MAX_ANNOTATION_CHARS);
    var close := FindClose(content, bodyStart, scanLimit);
    if close == None {
      return Visit(start, scanLimit, startLine, Unclosed);
    }
    return Visit(start, close.value + 1, startLine, Body(content[bodyStart..close.value]));
  }

  /** What the scan has to show for its visits so far. */
  datatype Tally = Tally(yielded: seq<(Text, Text, nat)>, oversizedOrUnclosed: nat, unmodeled: nat)

  function Counted(t: Tally, v: Visit, methodIn: Text -> Option<Text>, pathIn: Text -> Option<Text>): Tally {
    if v.found.NoBody? then t
    else if v.found.Unclosed? then t.(oversizedOrUnclosed := t.oversizedOrUnclosed + 1)
    else if Declaration(v, methodIn, pathIn).None? then t.(unmodeled := t.unmodeled + 1)
    else t.(yielded := t.yielded + [Declaration(v, methodIn, pathIn).value])
  }

  function IsUnclosed(): Visit -> bool { (v: Visit) => v.found.Unclosed? }

  function IsUnmodeled(methodIn: Text -> Option<Text>, pathIn: Text -> Option<Text>): Visit -> bool {
    (v: Visit) => v.found.Body? && Declaration(v, methodIn, pathIn).None?
  }

  ghost function Covering(isMarker: nat -> bool, isVisit: Visit -> bool): (seq<Visit>, nat) -> bool {
    (visits: seq<Visit>, cursor: nat) => Covered(visits, cursor, isMarker, isVisit)
  }

  /** Every marker before cursor is accounted for, and the tally is what the visits add up to. */
  ghost predicate Scanned(visits: seq<Visit>, cursor: nat, t: Tally, isMarker: nat -> bool, isVisit: Visit -> bool,
                          methodIn: Text -> Option<Text>, pathIn: Text -> Option<Text>)
  {
    && Covering(isMarker, isVisit)(visits, cursor)
    && t.yielded == Declarations(visits, methodIn, pathIn)
    && t.oversizedOrUnclosed == HowMany(visits, IsUnclosed())
    && t.unmodeled == HowMany(visits, IsUnmodeled(methodIn, pathIn))
  }

  lemma CoverMore(visits: seq<Visit>, cursor: nat, v: Visit, isMarker: nat -> bool, isVisit: Visit -> bool)
    requires Covering(isMarker, isVisit)(visits, cursor) && isVisit(v) && cursor <= v.start < v.end
    requires forall k :: cursor <= k < v.start ==> !isMarker(k)
    ensures Covering(isMarker, isVisit)(visits + [v], v.end)
  {
    forall k | 0 <= k < v.end && isMarker(k)
      ensures exists u :: u in visits + [v] && u.start <= k < u.end
    {
      if k < cursor {
        var u :| u in visits && u.start <= k < u.end;
        assert u in visits + [v];
      } else {
        assert v in visits + [v];
      }
    }
  }

  lemma HowManyMore(visits: seq<Visit>, v: Visit, p: Visit -> bool)
    ensures HowMany(visits + [v], p) == HowMany(visits, p) + if p(v) then 1 else 0
  {
    assert (visits + [v])[..|visits|] == visits;
  }

  lemma DeclarationsMore(visits: seq<Visit>, v: Visit, methodIn: Text -> Option<Text>, pathIn: Text -> Option<Text>)
    ensures Declarations(visits + [v], methodIn, pathIn) ==
            Declarations(visits, methodIn, pathIn)
            + if Declaration(v, methodIn, pathIn).Some? then [Declaration(v, methodIn, pathIn).value] else []
  {
    assert (visits + [v])[..|visits|] == visits;
  }

  lemma ScanMore(visits: seq<Visit>, cursor: nat, t: Tally, v: Visit, isMarker: nat -> bool, isVisit: Visit -> bool,
                 methodIn: Text -> Option<Text>, pathIn: Text -> Option<Text>)
    requires Scanned(visits, cursor, t, isMarker, isVisit, methodIn, pathIn)
    requires isVisit(v) && cursor <= v.start < v.end && forall k :: cursor <= k < v.start ==> !isMarker(k)
    ensures Scanned(visits + [v], v.end, Counted(t, v, methodIn, pathIn), isMarker, isVisit, methodIn, pathIn)
  {
    CoverMore(visits, cursor, v, isMarker, isVisit);
    HowManyMore(visits, v, IsUnclosed());
    HowManyMore(visits, v, IsUnmodeled(methodIn, pathIn));
    DeclarationsMore(visits, v, methodIn, pathIn);
    assert t.yielded + [] == t.yielded;
  }

  /** The scan as a relation between the cursor, the visits and the tally. */
  ghost function Scanning(content: Text, isWord: char -> bool, isSpace: char -> bool, methodIn: Text -> Option<Text>,
                          pathIn: Text -> Option<Text>): (nat, seq<Visit>,
                              Tally) -> bool
  {
    (cursor: nat, visits: seq<Visit>, t: Tally) =>
      Scanned(visits, cursor, t, Markers(content, isWord), Visits(content, isWord, isSpace), methodIn, pathIn)
  }

  lemma ScanStarts(content: Text, isWord: char -> bool, isSpace: char -> bool, methodIn: Text -> Option<Text>,
                   pathIn: Text -> Option<Text>)
    ensures Scanning(content, isWord, isSpace, methodIn, pathIn)(0, [], Tally([], 0, 0))
  {
  }

  lemma ScanVisit(content: Text, visits: seq<Visit>, cursor: nat, t: Tally, v: Visit, isWord: char -> bool,
                  isSpace: char -> bool, methodIn: Text -> Option<Text>, pathIn: Text -> Option<Text>)
    requires Scanning(content, isWord, isSpace, methodIn, pathIn)(cursor, visits, t)
    requires Visits(content, isWord, isSpace)(v) && cursor <= v.start < v.end
    requires forall k :: cursor <= k < v.start ==> !MarkerAt(content, k, isWord)
    ensures Scanning(content, isWord, isSpace, methodIn, pathIn)(v.end, visits + [v], Counted(t, v, methodIn, pathIn))
  {
    ScanMore(visits, cursor, t, v, Markers(content, isWord), Visits(content, isWord, isSpace), methodIn, pathIn);
  }

  lemma ScanDone(content: Text, visits: seq<Visit>, cursor: nat, t: Tally, isWord: char -> bool,
                 isSpace: char -> bool, methodIn: Text -> Option<Text>, pathIn: Text -> Option<Text>)
    requires Scanning(content, isWord, isSpace, methodIn, pathIn)(cursor, visits, t) && cursor <= |content|
    requires forall k :: cursor <= k ==> !MarkerAt(content, k, isWord)
    ensures Scanning(content, isWord, isSpace, methodIn, pathIn)(|content|, visits, t)
  {
  }

  method RetrofitHttpDeclarations(content: Text, isWord: char -> bool, isSpace: char -> bool,
                                  methodIn: Text -> Option<Text>, pathIn: Text -> Option<Text>)
    returns (t: Tally)
    ensures exists visits :: Scanning(content, isWord, isSpace, methodIn, pathIn)(|content|, visits, t)
  {
    t := Tally([], 0, 0);
    ghost var visits: seq<Visit> := [];
    var cursor: nat, lineAtCursor: nat := 0, 1;
    ScanStarts(content, isWord, isSpace, methodIn, pathIn);
    while true
      invariant cursor <= |content| && lineAtCursor == LineOf(content, cursor)
      invariant Scanning(content, isWord, isSpace, methodIn, pathIn)(cursor, visits, t)
      decreases |content| - cursor
    {
      var found := FindMarker(content, cursor, isWord);
      if found == None {
        ScanDone(content, visits, cursor, t, isWord, isSpace, methodIn, pathIn);
        return;
      }
      var start := found.value;
      LineMoves(content, cursor, start);
      var v := VisitMarker(content, start, lineAtCursor + Between(content, cursor, start), isWord, isSpace);
      ScanVisit(content, visits, cursor, t, v, isWord, isSpace, methodIn, pathIn);
      t := Counted(t, v, methodIn, pathIn);
      LineMoves(content, cursor, v.end);
      lineAtCursor := lineAtCursor + Between(content, cursor, v.end);
      cursor := v.end;
      visits := visits + [v];
    }
  }
}
