/**
 Comments blanked out of source text without moving anything, and line numbers that survive it. The maskers are
 proved against a tokeniser that divides a text into comments, literals and code.
 */
module CommentMasks {
  import opened Collections

  type Text = seq<char>

  /** What opens a comment and what quotes a literal; a tripled quote may open one that ends tripled. */
  datatype Style = Style(slashes: bool, hash: bool, quotes: set<char>, tripled: set<char>)

  const JAVA_KOTLIN := Style(true, false, {'"', '\''}, {'"'})
  const SMALI := Style(false, true, {'"'}, {})
  const JAVASCRIPT_DART := Style(true, false, {'"', '\'', '`'}, {'"', '\''})

  predicate IsNewline(c: char) { c == '\r' || c == '\n' }

  predicate At(s: Text, i: nat, word: Text) {
    i + |word| <= |s| && s[i..i + |word|] == word
  }

  function LineEnd(s: Text, i: nat): (r: nat)
    requires i <= |s|
    ensures i <= r <= |s| && (r < |s| ==> IsNewline(s[r])) && forall k :: i <= k < r ==> !IsNewline(s[k])
    decreases |s| - i
  {
    if i == |s| || IsNewline(s[i]) then i else LineEnd(s, i + 1)
  }

  /** Block comments nest. */
  function BlockEnd(s: Text, i: nat, depth: nat): (r: nat)
    requires i <= |s|
    ensures i <= r <= |s|
    decreases |s| - i
  {
    if i == |s| || depth == 0 then i
    else if At(s, i, "/*") then BlockEnd(s, i + 2, depth + 1)
    else if At(s, i, "*/") then BlockEnd(s, i + 2, depth - 1)
    else BlockEnd(s, i + 1, depth)
  }

  /** The end of a literal that is open at i; a backslash takes the next character with it. */
  function QuoteEnd(s: Text, i: nat, delimiter: Text): (r: nat)
    requires delimiter != []
    ensures Min(i, |s|) <= r <= |s|
    decreases |s| - i
  {
    if i >= |s| then |s|
    else if s[i] == '\\' then QuoteEnd(s, i + 2, delimiter)
    else if At(s, i, delimiter) then i + |delimiter|
    else QuoteEnd(s, i + 1, delimiter)
  }

  function Delimiter(style: Style, s: Text, i: nat): (r: Text)
    requires i < |s|
    ensures r != [] && r[0] == s[i] && (r == [s[i]] || r == [s[i], s[i], s[i]])
  {
    if s[i] in style.tripled && At(s, i, [s[i], s[i], s[i]]) then [s[i], s[i], s[i]] else [s[i]]
  }

  datatype Kind = Code | Comment | Literal

  /** The token that starts at i: its kind and its end. */
  function Token(style: Style, s: Text, i: nat): (r: (Kind, nat))
    requires i < |s|
    ensures i < r.1 <= |s|
  {
    if style.slashes && At(s, i, "//") then (Comment, LineEnd(s, i + 2))
    else if style.slashes && At(s, i, "/*") then (Comment, BlockEnd(s, i + 2, 1))
    else if style.hash && s[i] == '#' then (Comment, LineEnd(s, i + 1))
    else if s[i] in style.quotes then
      var delimiter := Delimiter(style, s, i);
      (Literal, QuoteEnd(s, i + |delimiter|, delimiter))
    else (Code, i + 1)
  }

  function Times(n: nat, kind: Kind): (r: seq<Kind>)
    ensures |r| == n && forall k :: 0 <= k < n ==> r[k] == kind
  {
    seq(n, _ => kind)
  }

  /** The kind of every character from a token boundary on. */
  function Kinds(style: Style, s: Text, i: nat): (r: seq<Kind>)
    requires i <= |s|
    ensures |r| == |s| - i
    decreases |s| - i
  {
    if i == |s| then []
    else
      var t := Token(style, s, i);
      Times(t.1 - i, t.0) + Kinds(style, s, t.1)
  }

  /** Comments become blanks; everything else, and every line break, stays where it is. */
  function Mask(style: Style, s: Text): (r: Text)
    ensures |r| == |s|
    ensures forall k :: 0 <= k < |s| ==>
              r[k] == if Kinds(style, s, 0)[k] == Comment && !IsNewline(s[k]) then ' ' else s[k]
  {
    var kinds := Kinds(style, s, 0);
    seq(|s|, k requires 0 <= k < |s| => if kinds[k] == Comment && !IsNewline(s[k]) then ' ' else s[k])
  }

  // ----- masking twice -----

  /** The kinds from i on are those of the whole text. */
  ghost predicate Boundary(style: Style, s: Text, i: nat) {
    i <= |s| && Kinds(style, s, 0)[i..] == Kinds(style, s, i)
  }

  lemma NextBoundary(style: Style, s: Text, i: nat)
    requires i < |s| && Boundary(style, s, i)
    ensures var t := Token(style, s, i);
            Boundary(style, s, t.1) && forall k :: i <= k < t.1 ==> Kinds(style, s, 0)[k] == t.0
  {
    var all, here, t := Kinds(style, s, 0), Kinds(style, s, i), Token(style, s, i);
    assert forall k :: i <= k < |s| ==> all[k] == all[i..][k - i];
    assert here[t.1 - i..] == Kinds(style, s, t.1);
    assert all[t.1..] == all[i..][t.1 - i..];
  }

  /** What a masked text can look like: the same, except for blanks. */
  ghost predicate Blanked(s: Text, m: Text) {
    |m| == |s| && forall k :: 0 <= k < |s| ==> m[k] == s[k] || m[k] == ' '
  }

  predicate Plain(style: Style) {
    forall c :: c in style.quotes ==> c != ' ' && !IsNewline(c) && c != '\\' && c != '/' && c != '#'
  }

  lemma {:induction false} QuoteEndKept(s: Text, m: Text, i: nat, delimiter: Text, end: nat)
    requires Blanked(s, m) && |delimiter| > 0 && ' ' !in delimiter && '\\' !in delimiter
    requires end == QuoteEnd(s, i, delimiter) && forall k :: i <= k < end ==> m[k] == s[k]
    ensures QuoteEnd(m, i, delimiter) == end
    decreases |s| - i
  {
    if i < |s| {
      WordKept(s, m, i, delimiter);
      if s[i] == '\\' {
        QuoteEndKept(s, m, i + 2, delimiter, end);
      } else if !At(s, i, delimiter) {
        QuoteEndKept(s, m, i + 1, delimiter, end);
      }
    }
  }

  /** A word without blanks in the masked text was there before, and stays if nothing in it is blanked. */
  lemma WordKept(s: Text, m: Text, i: nat, word: Text)
    requires Blanked(s, m) && ' ' !in word
    ensures At(m, i, word) ==> At(s, i, word)
    ensures At(s, i, word) && (forall k :: i <= k < i + |word| ==> m[k] == s[k]) ==> At(m, i, word)
  {
    if At(m, i, word) {
      forall k | 0 <= k < |word| ensures s[i..i + |word|][k] == word[k] {
        assert m[i..i + |word|][k] == word[k];
      }
    }
  }

  lemma CodeKept(style: Style, s: Text, m: Text, i: nat)
    requires Plain(style) && Blanked(s, m) && i < |s| && m[i] == s[i] && Token(style, s, i).0 == Code
    ensures Token(style, m, i) == (Code, i + 1)
  {
    WordKept(s, m, i, "//");
    WordKept(s, m, i, "/*");
  }

  lemma BlankIsCode(style: Style, m: Text, i: nat)
    requires Plain(style) && i < |m| && (m[i] == ' ' || IsNewline(m[i]))
    ensures Token(style, m, i) == (Code, i + 1)
  {
    FirstOf(m, i, "//");
    FirstOf(m, i, "/*");
  }

  lemma FirstOf(s: Text, i: nat, word: Text)
    requires word != []
    ensures At(s, i, word) ==> s[i] == word[0]
  {
    if At(s, i, word) { assert s[i..i + |word|][0] == word[0]; }
  }

  lemma LiteralKept(style: Style, s: Text, m: Text, i: nat)
    requires Plain(style) && Blanked(s, m) && i < |s| && Token(style, s, i).0 == Literal
    requires forall k :: i <= k < Token(style, s, i).1 ==> m[k] == s[k]
    ensures Token(style, m, i) == Token(style, s, i)
  {
    var end, delimiter := Token(style, s, i).1, Delimiter(style, s, i);
    WordKept(s, m, i, "//");
    WordKept(s, m, i, "/*");
    QuoteEndPast(s, i + |delimiter|, delimiter);
    DelimiterKept(style, s, m, i, end);
    QuoteEndKept(s, m, i + |delimiter|, delimiter, end);
  }

  lemma DelimiterKept(style: Style, s: Text, m: Text, i: nat, end: nat)
    requires Blanked(s, m) && i < |s| && s[i] != ' ' && i + |Delimiter(style, s, i)| <= end
    requires forall k :: i <= k < end && k < |m| ==> m[k] == s[k]
    ensures Delimiter(style, m, i) == Delimiter(style, s, i)
  {
    var c := s[i];
    assert m[i] == c;
    WordKept(s, m, i, [c, c, c]);
  }

  lemma QuoteEndPast(s: Text, i: nat, delimiter: Text)
    requires delimiter != [] && i <= |s|
    ensures QuoteEnd(s, i, delimiter) >= i
  {
  }

  function WithoutComment(k: Kind): Kind { if k == Comment then Code else k }

  function WithoutComments(kinds: seq<Kind>): (r: seq<Kind>)
    ensures |r| == |kinds| && forall k :: 0 <= k < |r| ==> r[k] == WithoutComment(kinds[k])
  {
    seq(|kinds|, k requires 0 <= k < |kinds| => WithoutComment(kinds[k]))
  }

  lemma {:induction false} BlanksAreCode(style: Style, m: Text, i: nat, end: nat)
    requires Plain(style) && i <= end <= |m| && forall k :: i <= k < end ==> m[k] == ' ' || IsNewline(m[k])
    ensures Kinds(style, m, i) == Times(end - i, Code) + Kinds(style, m, end)
    decreases end - i
  {
    if i < end {
      BlankIsCode(style, m, i);
      BlanksAreCode(style, m, i + 1, end);
    }
  }

  lemma WithoutJoined(n: nat, kind: Kind, rest: seq<Kind>)
    ensures WithoutComments(Times(n, kind) + rest) == Times(n, WithoutComment(kind)) + WithoutComments(rest)
  {
  }

  lemma MaskOfToken(style: Style, s: Text, i: nat, kind: Kind, end: nat)
    requires i < |s| && Boundary(style, s, i) && Token(style, s, i) == (kind, end)
    ensures forall k :: i <= k < end ==> Mask(style, s)[k] == if kind == Comment && !IsNewline(s[k]) then ' ' else s[k]
  {
    NextBoundary(style, s, i);
  }

  // The kinds of a text and of what masking makes of it, seen as functions of the place where a token starts.

  ghost function From(style: Style, s: Text): nat -> seq<Kind> {
    (i: nat) => if i <= |s| then Kinds(style, s, i) else []
  }

  ghost function Starts(style: Style, s: Text): nat -> bool {
    (i: nat) => Boundary(style, s, i)
  }

  ghost function Next(style: Style, s: Text): nat -> (Kind, nat) {
    (i: nat) => if i < |s| then Token(style, s, i) else (Code, i)
  }

  /** Token by token, the second has code where the first has comments. */
  ghost predicate Alike(all: nat -> seq<Kind>, masked: nat -> seq<Kind>, size: nat, starts: nat -> bool,
                        next: nat -> (Kind, nat)) {
    && all(size) == [] && masked(size) == []
    && forall i: nat :: starts(i) && i < size ==> AlikeAt(all, masked, size, starts, next(i).0, i, next(i).1)
  }

  ghost predicate AlikeAt(all: nat -> seq<Kind>, masked: nat -> seq<Kind>, size: nat, starts: nat -> bool, kind: Kind,
                          i: nat, end: nat) {
    && i < end <= size && starts(end)
    && all(i) == Times(end - i, kind) + all(end)
    && masked(i) == Times(end - i, WithoutComment(kind)) + masked(end)
  }

  lemma {:induction false} AlikeFrom(all: nat -> seq<Kind>, masked: nat -> seq<Kind>, size: nat, starts: nat -> bool,
                                     next: nat -> (Kind, nat), i: nat)
    requires Alike(all, masked, size, starts, next) && starts(i) && i <= size
    ensures masked(i) == WithoutComments(all(i))
    decreases size - i
  {
    if i < size {
      var (kind, end) := next(i);
      AlikeFrom(all, masked, size, starts, next, end);
      WithoutJoined(end - i, kind, all(end));
    }
  }

  lemma OneToken(style: Style, s: Text, m: Text, i: nat, kind: Kind, end: nat)
    requires Plain(style) && i < |s| && Boundary(style, s, i) && m == Mask(style, s)
             && Token(style, s, i) == (kind, end)
    ensures AlikeAt(From(style, s), From(style, m), |s|, Starts(style, s), kind, i, end)
  {
    NextBoundary(style, s, i);
    MaskOfToken(style, s, i, kind, end);
    TokenMasked(style, s, m, i, kind, end);
    KindsFrom(style, s, i, kind, end);
  }

  /** The tokens of masked text are those of the text, with code in the place of comments. */
  lemma KindsOfMasked(style: Style, s: Text, m: Text, i: nat)
    requires Plain(style) && Boundary(style, s, i) && m == Mask(style, s)
    ensures Kinds(style, m, i) == WithoutComments(Kinds(style, s, i))
  {
    var all, masked, starts, next := From(style, s), From(style, m), Starts(style, s), Next(style, s);
    forall i: nat | starts(i) && i < |s| ensures AlikeAt(all, masked, |s|, starts, next(i).0, i, next(i).1) {
      OneToken(style, s, m, i, next(i).0, next(i).1);
    }
    AlikeFrom(all, masked, |s|, starts, next, i);
  }

  lemma KindsFrom(style: Style, s: Text, i: nat, kind: Kind, end: nat)
    requires i < |s| && Token(style, s, i) == (kind, end)
    ensures Kinds(style, s, i) == Times(end - i, kind) + Kinds(style, s, end)
  {
  }

  lemma TokenMasked(style: Style, s: Text, m: Text, i: nat, kind: Kind, end: nat)
    requires Plain(style) && i < |s| && Blanked(s, m) && Token(style, s, i) == (kind, end)
    requires forall k :: i <= k < end ==> m[k] == if kind == Comment && !IsNewline(s[k]) then ' ' else s[k]
    ensures Kinds(style, m, i) == Times(end - i, WithoutComment(kind)) + Kinds(style, m, end)
  {
    if kind == Comment {
      BlanksAreCode(style, m, i, end);
    } else if kind == Literal {
      LiteralKept(style, s, m, i);
      KindsFrom(style, m, i, Literal, end);
    } else {
      CodeKept(style, s, m, i);
      KindsFrom(style, m, i, Code, end);
    }
  }

  /** Masked text has no comments left, and masking it again changes nothing. */
  lemma MaskingTwice(style: Style, s: Text)
    requires Plain(style)
    ensures forall k :: 0 <= k < |s| ==> Kinds(style, Mask(style, s), 0)[k] == WithoutComment(Kinds(style, s, 0)[k])
    ensures Mask(style, Mask(style, s)) == Mask(style, s)
  {
    assert Kinds(style, s, 0)[0..] == Kinds(style, s, 0);
    KindsOfMasked(style, s, Mask(style, s), 0);
  }

  lemma StylesArePlain()
    ensures Plain(JAVA_KOTLIN) && Plain(SMALI) && Plain(JAVASCRIPT_DART)
  {
  }

  /** What each of the three maskers yields has no comment left and is not changed by masking it again. */
  lemma MaskersLeaveNoComment(style: Style, s: Text)
    requires style == JAVA_KOTLIN || style == SMALI || style == JAVASCRIPT_DART
    ensures Mask(style, Mask(style, s)) == Mask(style, s)
    ensures Comment !in Kinds(style, Mask(style, s), 0)
  {
    StylesArePlain();
    MaskingTwice(style, s);
  }

  // ----- the maskers -----

  method ScanLine(source: Text, start: nat) returns (end: nat)
    requires start <= |source|
    ensures end == LineEnd(source, start)
  {
    end := start;
    while end < |source| && !IsNewline(source[end])
      invariant start <= end <= |source| && LineEnd(source, end) == LineEnd(source, start)
    {
      end := end + 1;
    }
  }

  method ScanBlock(source: Text, start: nat) returns (index: nat)
    requires start + 2 <= |source|
    ensures index == BlockEnd(source, start + 2, 1)
  {
    index := start + 2;
    var depth: nat := 1;
    while index < |source| && depth != 0
      invariant index <= |source| && BlockEnd(source, index, depth) == BlockEnd(source, start + 2, 1)
      decreases |source| - index
    {
      if At(source, index, "/*") {
        depth, index := depth + 1, index + 2;
      } else if At(source, index, "*/") {
        depth, index := depth - 1, index + 2;
      } else {
        index := index + 1;
      }
    }
  }

  /** Where a literal ends; a backslash at the very end puts the index one beyond the text. */
  method ScanLiteral(source: Text, start: nat, delimiter: Text) returns (index: nat)
    requires start <= |source| && delimiter != []
    ensures Min(index, |source|) == QuoteEnd(source, start, delimiter)
  {
    index := start;
    while index < |source|
      invariant QuoteEnd(source, index, delimiter) == QuoteEnd(source, start, delimiter)
      decreases |source| - index
    {
      if source[index] == '\\' {
        index := index + 2;
      } else if At(source, index, delimiter) {
        index := index + |delimiter|;
        break;
      } else {
        index := index + 1;
      }
    }
  }

  function BlankRange(t: Text, start: nat, end: nat): (r: Text)
    requires start <= end <= |t|
    ensures |r| == |t|
    ensures forall k :: 0 <= k < |t| ==> r[k] == if start <= k < end && !IsNewline(t[k]) then ' ' else t[k]
  {
    seq(|t|, k requires 0 <= k < |t| => if start <= k < end && !IsNewline(t[k]) then ' ' else t[k])
  }

  method Blank(chars: array<char>, start: nat, end: nat)
    requires start <= end <= chars.Length
    modifies chars
    ensures chars[..] == BlankRange(old(chars[..]), start, end)
  {
    for position := start to end
      invariant chars[..] == BlankRange(old(chars[..]), start, position)
    {
      if !IsNewline(chars[position]) {
        chars[position] := ' ';
      }
    }
  }

  predicate Unbroken(t: Text, start: nat, end: nat) {
    end <= |t| && forall k :: start <= k < end ==> !IsNewline(t[k])
  }

  /** Without looking at what is blanked: for a range without line breaks. */
  method BlankAll(chars: array<char>, start: nat, end: nat)
    requires start <= end <= chars.Length && Unbroken(chars[..], start, end)
    modifies chars
    ensures chars[..] == BlankRange(old(chars[..]), start, end)
  {
    for position := start to end
      invariant chars[..] == BlankRange(old(chars[..]), start, position)
      invariant Unbroken(chars[..], position, end)
    {
      chars[position] := ' ';
    }
  }

  /** Masked up to a token boundary, untouched from there on. */
  ghost function Masking(style: Style, source: Text): (Text, nat) -> bool {
    (chars: Text, index: nat) =>
      var done := Min(index, |source|);
      && |chars| == |source| && Boundary(style, source, done)
      && (forall k :: 0 <= k < done ==> chars[k] == Mask(style, source)[k])
      && (forall k :: done <= k < |source| ==> chars[k] == source[k])
  }

  lemma MaskStarts(style: Style, source: Text)
    ensures Masking(style, source)(source, 0)
  {
    assert Kinds(style, source, 0)[0..] == Kinds(style, source, 0);
    assert Boundary(style, source, 0) && Min(0, |source|) == 0;
  }

  lemma MaskComment(style: Style, source: Text, chars: Text, index: nat, end: nat)
    requires Masking(style, source)(chars, index) && index < |source| && Token(style, source, index) == (Comment, end)
    ensures Masking(style, source)(BlankRange(chars, index, end), end)
  {
    NextBoundary(style, source, index);
    MaskOfToken(style, source, index, Token(style, source, index).0, Token(style, source, index).1);
  }

  lemma MaskOther(style: Style, source: Text, chars: Text, index: nat, end: nat)
    requires Masking(style, source)(chars, index) && index < |source| && Token(style, source, index).0 != Comment
    requires Min(end, |source|) == Token(style, source, index).1
    ensures Masking(style, source)(chars, end)
  {
    NextBoundary(style, source, index);
    MaskOfToken(style, source, index, Token(style, source, index).0, Token(style, source, index).1);
  }

  lemma MaskEnds(style: Style, source: Text, chars: Text, index: nat)
    requires Masking(style, source)(chars, index) && index >= |source|
    ensures chars == Mask(style, source)
  {
  }

  /** A line comment that has not been blanked yet has no line break. */
  lemma NoBreaks(style: Style, source: Text, chars: Text, index: nat, from: nat)
    requires Masking(style, source)(chars, index) && index <= from <= |source|
    requires Unbroken(source, index, from)
    ensures Unbroken(chars, index, LineEnd(source, from))
  {
  }

  lemma MaskedSize(style: Style, source: Text, chars: Text, index: nat)
    requires Masking(style, source)(chars, index)
    ensures |chars| == |source|
  {
  }

  // The tokeniser, one case at a time.

  predicate OpensComment(style: Style, s: Text, i: nat)
    requires i < |s|
  {
    (style.slashes && (At(s, i, "//") || At(s, i, "/*"))) || (style.hash && s[i] == '#')
  }

  lemma TokenOfLine(style: Style, s: Text, i: nat)
    requires i < |s| && style.slashes && At(s, i, "//")
    ensures i + 2 <= |s| && Token(style, s, i) == (Comment, LineEnd(s, i + 2))
  {
  }

  lemma TokenOfBlock(style: Style, s: Text, i: nat)
    requires i < |s| && style.slashes && At(s, i, "/*")
    ensures i + 2 <= |s| && Token(style, s, i) == (Comment, BlockEnd(s, i + 2, 1))
  {
    assert !At(s, i, "//") by { assert s[i..i + 2][1] == '*'; }
  }

  lemma TokenOfHash(style: Style, s: Text, i: nat)
    requires i < |s| && !style.slashes && style.hash && s[i] == '#'
    ensures Token(style, s, i) == (Comment, LineEnd(s, i + 1))
  {
  }

  lemma TokenOfLiteral(style: Style, s: Text, i: nat, delimiter: Text)
    requires i < |s| && !OpensComment(style, s, i) && s[i] in style.quotes && delimiter == Delimiter(style, s, i)
    ensures i + |delimiter| <= |s| && Token(style, s, i) == (Literal, QuoteEnd(s, i + |delimiter|, delimiter))
  {
  }

  lemma TokenOfCode(style: Style, s: Text, i: nat)
    requires i < |s| && !OpensComment(style, s, i) && s[i] !in style.quotes
    ensures Token(style, s, i) == (Code, i + 1)
  {
  }

  method ToArray(source: Text) returns (chars: array<char>)
    ensures fresh(chars) && chars[..] == source
  {
    chars := new char[|source|](i requires 0 <= i < |source| => source[i]);
  }

  method JavaKotlinLiteral(source: Text, start: nat) returns (end: nat)
    requires start < |source| && !OpensComment(JAVA_KOTLIN, source, start) && source[start] in JAVA_KOTLIN.quotes
    ensures (Literal, Min(end, |source|)) == Token(JAVA_KOTLIN, source, start)
  {
    var quote := source[start];
    var delimiter := if quote == '"' && At(source, start, "\"\"\"") then [quote, quote, quote] else [quote];
    assert delimiter == Delimiter(JAVA_KOTLIN, source, start);
    TokenOfLiteral(JAVA_KOTLIN, source, start, delimiter);
    end := ScanLiteral(source, start + |delimiter|, delimiter);
  }

  method JavascriptDartLiteral(source: Text, start: nat) returns (end: nat)
    requires start < |source| && !OpensComment(JAVASCRIPT_DART, source, start)
             && source[start] in JAVASCRIPT_DART.quotes
    ensures (Literal, Min(end, |source|)) == Token(JAVASCRIPT_DART, source, start)
  {
    var quote := source[start];
    var delimiter := if quote in {'"', '\''} && At(source, start, [quote, quote, quote]) then [quote, quote, quote]
                                  else [quote];
    assert delimiter == Delimiter(JAVASCRIPT_DART, source, start);
    TokenOfLiteral(JAVASCRIPT_DART, source, start, delimiter);
    end := ScanLiteral(source, start + |delimiter|, delimiter);
  }

  method SmaliLiteral(source: Text, start: nat) returns (end: nat)
    requires start < |source| && source[start] == '"'
    ensures (Literal, Min(end, |source|)) == Token(SMALI, source, start)
  {
    assert "\"" == Delimiter(SMALI, source, start);
    TokenOfLiteral(SMALI, source, start, "\"");
    end := ScanLiteral(source, start + 1, "\"");
  }

  // One step of a masker: a comment is blanked, anything else is passed over.

  method BlankBlock(style: Style, source: Text, chars: array<char>, start: nat) returns (index: nat)
    requires start < |source| == chars.Length && style.slashes && At(source, start, "/*")
    requires Masking(style, source)(chars[..], start)
    modifies chars
    ensures start < index && Masking(style, source)(chars[..], index)
  {
    TokenOfBlock(style, source, start);
    index := ScanBlock(source, start);
    MaskComment(style, source, chars[..], start, index);
    Blank(chars, start, index);
  }

  method BlankLine(style: Style, source: Text, chars: array<char>, index: nat) returns (end: nat)
    requires index < |source| == chars.Length && style.slashes && At(source, index, "//")
    requires Masking(style, source)(chars[..], index)
    modifies chars
    ensures index < end && Masking(style, source)(chars[..], end)
  {
    TokenOfLine(style, source, index);
    end := ScanLine(source, index + 2);
    MaskComment(style, source, chars[..], index, end);
    Blank(chars, index, end);
  }

  method BlankWholeLine(style: Style, source: Text, chars: array<char>, index: nat) returns (end: nat)
    requires index < |source| == chars.Length && style.slashes && At(source, index, "//")
    requires Masking(style, source)(chars[..], index)
    modifies chars
    ensures index < end && Masking(style, source)(chars[..], end)
  {
    TokenOfLine(style, source, index);
    end := ScanLine(source, index + 2);
    MaskComment(style, source, chars[..], index, end);
    SlashesAreNoNewlines(source, index);
    NoBreaks(style, source, chars[..], index, index + 2);
    BlankAll(chars, index, end);
  }

  method BlankHash(style: Style, source: Text, chars: array<char>, index: nat) returns (end: nat)
    requires index < |source| == chars.Length && !style.slashes && style.hash && source[index] == '#'
    requires Masking(style, source)(chars[..], index)
    modifies chars
    ensures index < end && Masking(style, source)(chars[..], end)
  {
    TokenOfHash(style, source, index);
    end := ScanLine(source, index + 1);
    MaskComment(style, source, chars[..], index, end);
    NoBreaks(style, source, chars[..], index, index + 1);
    BlankAll(chars, index, end);
  }

  lemma MaskLiteral(style: Style, source: Text, chars: Text, index: nat, end: nat)
    requires Masking(style, source)(chars, index) && index < |source|
    requires (Literal, Min(end, |source|)) == Token(style, source, index)
    ensures index < end && Masking(style, source)(chars, end)
  {
    MaskOther(style, source, chars, index, end);
  }

  lemma MaskCode(style: Style, source: Text, chars: Text, index: nat)
    requires Masking(style, source)(chars, index) && index < |source|
    requires !OpensComment(style, source, index) && source[index] !in style.quotes
    ensures Masking(style, source)(chars, index + 1)
  {
    TokenOfCode(style, source, index);
    MaskOther(style, source, chars, index, index + 1);
  }

  method MaskJavaKotlinComments(source: Text) returns (masked: Text)
    ensures masked == Mask(JAVA_KOTLIN, source)
  {
    var chars := ToArray(source);
    var index := 0;
    MaskStarts(JAVA_KOTLIN, source);
    while index < |source|
      invariant fresh(chars) && Masking(JAVA_KOTLIN, source)(chars[..], index)
      decreases |source| - index
    {
      MaskedSize(JAVA_KOTLIN, source, chars[..], index);
      if At(source, index, "//") {
        index := BlankLine(JAVA_KOTLIN, source, chars, index);
      } else if At(source, index, "/*") {
        index := BlankBlock(JAVA_KOTLIN, source, chars, index);
      } else if source[index] in JAVA_KOTLIN.quotes {
        var start := index;
        index := JavaKotlinLiteral(source, start);
        MaskLiteral(JAVA_KOTLIN, source, chars[..], start, index);
      } else {
        MaskCode(JAVA_KOTLIN, source, chars[..], index);
        index := index + 1;
      }
    }
    MaskEnds(JAVA_KOTLIN, source, chars[..], index);
    return chars[..];
  }

  method MaskSmaliComments(source: Text) returns (masked: Text)
    ensures masked == Mask(SMALI, source)
  {
    var chars := ToArray(source);
    var index := 0;
    MaskStarts(SMALI, source);
    while index < |source|
      invariant fresh(chars) && Masking(SMALI, source)(chars[..], index)
      decreases |source| - index
    {
      MaskedSize(SMALI, source, chars[..], index);
      if source[index] == '"' {
        var start := index;
        index := SmaliLiteral(source, start);
        MaskLiteral(SMALI, source, chars[..], start, index);
      } else if source[index] == '#' {
        index := BlankHash(SMALI, source, chars, index);
      } else {
        MaskCode(SMALI, source, chars[..], index);
        index := index + 1;
      }
    }
    MaskEnds(SMALI, source, chars[..], index);
    return chars[..];
  }

  method MaskJavascriptDartComments(source: Text) returns (masked: Text)
    ensures masked == Mask(JAVASCRIPT_DART, source)
  {
    var chars := ToArray(source);
    var index := 0;
    MaskStarts(JAVASCRIPT_DART, source);
    while index < |source|
      invariant fresh(chars) && Masking(JAVASCRIPT_DART, source)(chars[..], index)
      decreases |source| - index
    {
      MaskedSize(JAVASCRIPT_DART, source, chars[..], index);
      if At(source, index, "//") {
        index := BlankWholeLine(JAVASCRIPT_DART, source, chars, index);
      } else if At(source, index, "/*") {
        index := BlankBlock(JAVASCRIPT_DART, source, chars, index);
      } else if source[index] in JAVASCRIPT_DART.quotes {
        var start := index;
        index := JavascriptDartLiteral(source, start);
        MaskLiteral(JAVASCRIPT_DART, source, chars[..], start, index);
      } else {
        MaskCode(JAVASCRIPT_DART, source, chars[..], index);
        index := index + 1;
      }
    }
    MaskEnds(JAVASCRIPT_DART, source, chars[..], index);
    return chars[..];
  }

  lemma SlashesAreNoNewlines(s: Text, i: nat)
    requires At(s, i, "//")
    ensures Unbroken(s, i, i + 2)
  {
    assert s[i..i + 2][0] == '/' && s[i..i + 2][1] == '/';
  }
}
