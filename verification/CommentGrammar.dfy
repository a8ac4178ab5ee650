/**
 What masking does to a text, said by a grammar of what a text can start with: a line comment, a block comment
 with the comments nested in it, a literal with its escapes, or any other character.
 */
module CommentGrammar {
  import opened CommentMasks

  // ----- the grammar -----

  /** What is inside a block comment: characters, and further comments. */
  datatype Body = Done | Char(rest: Body) | Nested(inner: Body, end: nat, rest: Body)

  /** The text from i to j is that of the body. */
  ghost predicate Spans(b: Body, s: Text, i: nat, j: nat)
    decreases b
  {
    match b
    case Done => i == j
    case Char(rest) => i < j <= |s| && !At(s, i, "/*") && !At(s, i, "*/") && Spans(rest, s, i + 1, j)
    case Nested(inner, end, rest) =>
      && i + 4 <= end <= j && At(s, i, "/*") && Spans(inner, s, i + 2, end - 2) && At(s, end - 2, "*/")
      && Spans(rest, s, end, j)
  }

  /** The comment whose text starts at i ends before e, with a body in between. */
  ghost predicate Closes(b: Body, s: Text, i: nat, e: nat) {
    i + 2 <= e && Spans(b, s, i, e - 2) && At(s, e - 2, "*/")
  }

  /** The text of a literal: no delimiter in it, where a backslash takes the next character along. */
  predicate Literally(s: Text, i: nat, j: nat, delimiter: Text)
    decreases j - i
  {
    || i == j
    || (i < j <= |s| && s[i] == '\\' && i + 2 <= j && Literally(s, i + 2, j, delimiter))
    || (i < j <= |s| && s[i] != '\\' && !At(s, i, delimiter) && Literally(s, i + 1, j, delimiter))
  }

  datatype Piece = LineComment | BlockComment(body: Body) | OpenComment | Quoted | OpenQuote | Other

  predicate LineBreak(c: char) { c in {'\r', '\n'} }

  ghost predicate OpensLine(style: Style, s: Text) {
    (style.slashes && At(s, 0, "//")) || (style.hash && At(s, 0, "#"))
  }

  /** Where the language has it, a tripled quote opens a literal that only a tripled quote closes. */
  predicate Opens(style: Style, s: Text, delimiter: Text) {
    && delimiter != [] && delimiter[0] in style.quotes && At(s, 0, delimiter)
    && var tripled := [delimiter[0], delimiter[0], delimiter[0]];
       if delimiter[0] in style.tripled && At(s, 0, tripled) then delimiter == tripled else |delimiter| == 1
  }

  /** The text starts with the piece, which ends before e. */
  ghost predicate Starts(style: Style, s: Text, piece: Piece, delimiter: Text, e: nat) {
    && 0 < e <= |s|
    && match piece
       case LineComment =>
         OpensLine(style, s) && (forall k :: 0 <= k < e ==> !LineBreak(s[k])) && (e < |s| ==> LineBreak(s[e]))
       case BlockComment(body) => style.slashes && At(s, 0, "/*") && Closes(body, s, 2, e)
       case OpenComment =>
         style.slashes && At(s, 0, "/*") && e == |s| && forall b, end :: !Closes(b, s, 2, end)
       case Quoted =>
         && Opens(style, s, delimiter) && 2 * |delimiter| <= e
         && Literally(s, |delimiter|, e - |delimiter|, delimiter) && At(s, e - |delimiter|, delimiter)
       case OpenQuote =>
         && Opens(style, s, delimiter) && e == |s|
         && forall j :: |delimiter| <= j && Literally(s, |delimiter|, j, delimiter) ==> !At(s, j, delimiter)
       case Other =>
         && e == 1 && !OpensLine(style, s) && !(style.slashes && At(s, 0, "/*")) && s[0] !in style.quotes
  }

  /** Comments are blanked, where line breaks stay, and everything else is left as it is. */
  function Shown(piece: Piece, s: Text): (r: Text)
    ensures |r| == |s|
  {
    seq(|s|, k requires 0 <= k < |s| =>
      if (piece.LineComment? || piece.BlockComment? || piece.OpenComment?) && !LineBreak(s[k]) then ' ' else s[k])
  }

  // ----- a comment ends where the grammar says -----

  lemma {:induction false} BodyPassed(b: Body, s: Text, i: nat, j: nat, depth: nat)
    requires Spans(b, s, i, j) && j <= |s| && depth > 0
    ensures BlockEnd(s, i, depth) == BlockEnd(s, j, depth)
    decreases b
  {
    match b
    case Done =>
    case Char(rest) => BodyPassed(rest, s, i + 1, j, depth);
    case Nested(inner, end, rest) =>
      BodyPassed(inner, s, i + 2, end - 2, depth + 1);
      NotBoth(s, end - 2);
      BodyPassed(rest, s, end, j, depth);
  }

  lemma NotBoth(s: Text, i: nat)
    requires At(s, i, "*/")
    ensures !At(s, i, "/*")
  {
    assert s[i..i + 2][0] == '*';
  }

  lemma ClosedEnds(b: Body, s: Text, i: nat, e: nat)
    requires Closes(b, s, i, e)
    ensures BlockEnd(s, i, 1) == e
  {
    BodyPassed(b, s, i, e - 2, 1);
    NotBoth(s, e - 2);
  }

  /** Nothing closes a comment that is open at i, however deep it is. */
  ghost predicate Endless(s: Text, i: nat)
    requires i <= |s|
  {
    forall depth: nat :: depth > 0 ==> BlockEnd(s, i, depth) == |s|
  }

  lemma EndlessBefore(s: Text, i: nat)
    requires i < |s| && !At(s, i, "*/")
    requires Endless(s, if At(s, i, "/*") then i + 2 else i + 1)
    ensures Endless(s, i)
  {
  }

  lemma EndlessAfter(inner: Body, s: Text, i: nat, end: nat)
    requires At(s, i, "/*") && Closes(inner, s, i + 2, end) && end <= |s| && Endless(s, end)
    ensures Endless(s, i)
  {
    NotBoth(s, end - 2);
    forall depth: nat | depth > 0 ensures BlockEnd(s, i, depth) == |s| {
      BodyPassed(inner, s, i + 2, end - 2, depth + 1);
    }
  }

  /** From any place either a body leads to a closing mark, or nothing closes the comment any more. */
  lemma {:induction false} BodyFrom(s: Text, i: nat) returns (closed: bool, b: Body, e: nat)
    requires i <= |s|
    ensures closed ==> Closes(b, s, i, e) && e <= |s|
    ensures !closed ==> Endless(s, i)
    decreases |s| - i
  {
    if i == |s| {
      closed, b, e := false, Done, 0;
    } else if At(s, i, "/*") {
      var inner, end;
      closed, inner, end := BodyFrom(s, i + 2);
      b, e := Done, 0;
      if closed {
        var rest;
        closed, rest, e := BodyFrom(s, end);
        b := Nested(inner, end, rest);
        if !closed {
          EndlessAfter(inner, s, i, end);
        }
      } else {
        EndlessBefore(s, i);
      }
    } else if At(s, i, "*/") {
      closed, b, e := true, Done, i + 2;
    } else {
      closed, b, e := BodyFrom(s, i + 1);
      b := Char(b);
      if !closed {
        EndlessBefore(s, i);
      }
    }
  }

  /** A block comment ends after its body, and at the end of the text if nothing closes it. */
  lemma BlockEndsExactly(s: Text, i: nat, e: nat)
    requires i <= |s|
    ensures BlockEnd(s, i, 1) == e <==>
            (exists b :: Closes(b, s, i, e)) || (e == |s| && forall b, end :: !Closes(b, s, i, end))
  {
    var closed, b, end := BodyFrom(s, i);
    if closed {
      ClosedEnds(b, s, i, end);
    }
    forall b', end' | Closes(b', s, i, end') ensures BlockEnd(s, i, 1) == end' {
      ClosedEnds(b', s, i, end');
    }
  }

  // ----- so does a literal -----

  lemma {:induction false} LiteralPassed(s: Text, i: nat, j: nat, delimiter: Text)
    requires delimiter != [] && i <= j <= |s| && Literally(s, i, j, delimiter)
    ensures QuoteEnd(s, i, delimiter) == QuoteEnd(s, j, delimiter)
    decreases j - i
  {
    if i < j {
      LiteralPassed(s, if s[i] == '\\' then i + 2 else i + 1, j, delimiter);
    }
  }

  lemma {:induction false} LiteralFrom(s: Text, i: nat, delimiter: Text) returns (closed: bool, j: nat)
    requires delimiter != [] && delimiter[0] != '\\'
    ensures closed ==> i <= j && Literally(s, i, j, delimiter) && At(s, j, delimiter)
    ensures !closed ==> QuoteEnd(s, i, delimiter) == |s|
    decreases |s| - i
  {
    closed, j := false, i;
    if i < |s| {
      if s[i] == '\\' {
        closed, j := LiteralFrom(s, i + 2, delimiter);
      } else if At(s, i, delimiter) {
        closed := true;
      } else {
        closed, j := LiteralFrom(s, i + 1, delimiter);
      }
    }
  }

  /** A literal ends after its text and a delimiter, and at the end of the source if nothing closes it. */
  lemma LiteralEndsExactly(s: Text, i: nat, delimiter: Text, e: nat)
    requires delimiter != [] && delimiter[0] != '\\' && i <= |s|
    ensures QuoteEnd(s, i, delimiter) == e <==>
            || (i + |delimiter| <= e && Literally(s, i, e - |delimiter|, delimiter)
                && At(s, e - |delimiter|, delimiter))
            || (e == |s| && forall j :: i <= j && Literally(s, i, j, delimiter) ==> !At(s, j, delimiter))
  {
    var closed, j := LiteralFrom(s, i, delimiter);
    if closed {
      LiteralClosed(s, i, j, delimiter);
    }
    forall j' | i <= j' && Literally(s, i, j', delimiter) && At(s, j', delimiter)
      ensures QuoteEnd(s, i, delimiter) == j' + |delimiter|
    {
      LiteralClosed(s, i, j', delimiter);
    }
  }

  lemma LiteralClosed(s: Text, i: nat, j: nat, delimiter: Text)
    requires delimiter != [] && delimiter[0] != '\\' && i <= j && Literally(s, i, j, delimiter) && At(s, j, delimiter)
    ensures QuoteEnd(s, i, delimiter) == j + |delimiter|
  {
    LiteralPassed(s, i, j, delimiter);
    FirstOf(s, j, delimiter);
  }

  // ----- what comes before a place has no say in what comes after -----

  lemma AtLater(s: Text, t: Text, o: nat, i: nat, word: Text)
    requires o <= |s| && t == s[o..]
    ensures At(s, o + i, word) <==> At(t, i, word)
  {
    if o + i + |word| <= |s| {
      assert s[o + i..o + i + |word|] == t[i..i + |word|];
    }
  }

  lemma {:induction false} LineEndLater(s: Text, t: Text, o: nat, i: nat)
    requires o <= |s| && t == s[o..] && i <= |t|
    ensures LineEnd(s, o + i) == o + LineEnd(t, i)
    decreases |t| - i
  {
    if i < |t| && !LineBreak(t[i]) {
      LineEndLater(s, t, o, i + 1);
    }
  }

  /** Looking for the end of a block comment, wherever its marks are. */
  ghost function EndOf(opens: nat -> bool, closes: nat -> bool, size: nat, i: nat, depth: nat): nat
    decreases size - i
  {
    if i >= size || depth == 0 then i
    else if opens(i) then EndOf(opens, closes, size, i + 2, depth + 1)
    else if closes(i) then EndOf(opens, closes, size, i + 2, depth - 1)
    else EndOf(opens, closes, size, i + 1, depth)
  }

  ghost function Marks(s: Text, mark: Text): nat -> bool {
    (i: nat) => At(s, i, mark)
  }

  lemma {:induction false} BlockEndIsEnd(s: Text, i: nat, depth: nat)
    requires i <= |s|
    ensures BlockEnd(s, i, depth) == EndOf(Marks(s, "/*"), Marks(s, "*/"), |s|, i, depth)
    decreases |s| - i
  {
    if i < |s| && depth > 0 {
      if At(s, i, "/*") {
        BlockEndIsEnd(s, i + 2, depth + 1);
      } else if At(s, i, "*/") {
        BlockEndIsEnd(s, i + 2, depth - 1);
      } else {
        BlockEndIsEnd(s, i + 1, depth);
      }
    }
  }

  lemma {:induction false} EndLater(opens: nat -> bool, closes: nat -> bool, opens': nat -> bool,
                                    closes': nat -> bool, size: nat, o: nat, i: nat, depth: nat)
    requires forall k: nat :: opens(o + k) == opens'(k)
    requires forall k: nat :: closes(o + k) == closes'(k)
    ensures EndOf(opens, closes, o + size, o + i, depth) == o + EndOf(opens', closes', size, i, depth)
    decreases size - i
  {
    if i < size && depth > 0 {
      if opens'(i) {
        EndLater(opens, closes, opens', closes', size, o, i + 2, depth + 1);
      } else if closes'(i) {
        EndLater(opens, closes, opens', closes', size, o, i + 2, depth - 1);
      } else {
        EndLater(opens, closes, opens', closes', size, o, i + 1, depth);
      }
    }
  }

  lemma EndMoved(s: Text, t: Text, o: nat, i: nat, depth: nat)
    requires o <= |s| && t == s[o..]
    ensures EndOf(Marks(s, "/*"), Marks(s, "*/"), |s|, o + i, depth)
         == o + EndOf(Marks(t, "/*"), Marks(t, "*/"), |t|, i, depth)
  {
    MarksLater(s, t, o, "/*");
    MarksLater(s, t, o, "*/");
    EndLater(Marks(s, "/*"), Marks(s, "*/"), Marks(t, "/*"), Marks(t, "*/"), |t|, o, i, depth);
  }

  lemma BlockEndLater(s: Text, t: Text, o: nat, i: nat, depth: nat)
    requires o <= |s| && t == s[o..] && i <= |t|
    ensures BlockEnd(s, o + i, depth) == o + BlockEnd(t, i, depth)
  {
    BlockEndIsEnd(t, i, depth);
    BlockEndIsEnd(s, o + i, depth);
    EndMoved(s, t, o, i, depth);
  }

  lemma MarksLater(s: Text, t: Text, o: nat, mark: Text)
    requires o <= |s| && t == s[o..]
    ensures forall k: nat :: Marks(s, mark)(o + k) == Marks(t, mark)(k)
  {
    forall k: nat ensures Marks(s, mark)(o + k) == Marks(t, mark)(k) {
      AtLater(s, t, o, k, mark);
    }
  }

  lemma {:induction false} QuoteEndLater(s: Text, t: Text, o: nat, i: nat, delimiter: Text)
    requires o <= |s| && t == s[o..] && delimiter != []
    ensures QuoteEnd(s, o + i, delimiter) == o + QuoteEnd(t, i, delimiter)
    decreases |t| - i
  {
    if i < |t| {
      AtLater(s, t, o, i, delimiter);
      if t[i] == '\\' {
        QuoteEndLater(s, t, o, i + 2, delimiter);
      } else if !At(t, i, delimiter) {
        QuoteEndLater(s, t, o, i + 1, delimiter);
      }
    }
  }

  ghost function Delimits(style: Style, s: Text): (nat, Text) -> bool {
    (i: nat, delimiter: Text) => i < |s| && delimiter == Delimiter(style, s, i)
  }

  lemma DelimiterLater(style: Style, s: Text, t: Text, o: nat, i: nat, delimiter: Text)
    requires o <= |s| && t == s[o..] && i < |t| && delimiter == Delimiter(style, t, i)
    ensures Delimits(style, s)(o + i, delimiter)
  {
    AtLater(s, t, o, i, [t[i], t[i], t[i]]);
  }

  lemma LiteralEnds(style: Style, s: Text, i: nat, delimiter: Text, from: nat, end: nat)
    requires i < |s| && s[i] in style.quotes && !OpensComment(style, s, i) && Delimits(style, s)(i, delimiter)
    requires delimiter != [] && from == i + |delimiter| && end == QuoteEnd(s, from, delimiter)
    ensures Token(style, s, i) == (Literal, end)
  {
    TokenOfLiteral(style, s, i, delimiter);
  }

  lemma SameChar(s: Text, t: Text, o: nat, i: nat)
    requires o <= |s| && t == s[o..] && i < |t|
    ensures o + i < |s| && s[o + i] == t[i]
  {
  }

  lemma LiteralLater(style: Style, s: Text, t: Text, o: nat, i: nat, j: nat, delimiter: Text, from: nat, end: nat)
    requires o <= |s| && t == s[o..] && i < |t| && j == o + i && from == i + |delimiter|
    requires j < |s| && s[j] in style.quotes && !OpensComment(style, s, j) && Delimits(style, s)(j, delimiter)
    requires delimiter != [] && end == QuoteEnd(t, from, delimiter)
    ensures Token(style, s, j) == (Literal, o + end)
  {
    QuoteEndLater(s, t, o, from, delimiter);
    LiteralEnds(style, s, j, delimiter, o + from, o + end);
  }

  lemma LineLater(style: Style, s: Text, t: Text, o: nat, i: nat)
    requires o <= |s| && t == s[o..] && i < |t| && style.slashes && At(t, i, "//") && At(s, o + i, "//")
    ensures Token(style, s, o + i) == (Comment, o + Token(style, t, i).1) && Token(style, t, i).0 == Comment
  {
    TokenOfLine(style, t, i);
    TokenOfLine(style, s, o + i);
    LineEndLater(s, t, o, i + 2);
  }

  lemma BlockLater(style: Style, s: Text, t: Text, o: nat, i: nat)
    requires o <= |s| && t == s[o..] && i < |t| && style.slashes && At(t, i, "/*") && At(s, o + i, "/*")
    ensures Token(style, s, o + i) == (Comment, o + Token(style, t, i).1) && Token(style, t, i).0 == Comment
  {
    TokenOfBlock(style, t, i);
    TokenOfBlock(style, s, o + i);
    BlockEndLater(s, t, o, i + 2, 1);
  }

  lemma HashLater(style: Style, s: Text, t: Text, o: nat, i: nat)
    requires o <= |s| && t == s[o..] && i < |t| && !style.slashes && style.hash && t[i] == '#'
    ensures Token(style, s, o + i) == (Comment, o + Token(style, t, i).1) && Token(style, t, i).0 == Comment
  {
    TokenOfHash(style, t, i);
    TokenOfHash(style, s, o + i);
    LineEndLater(s, t, o, i + 1);
  }

  lemma CodeLater(style: Style, s: Text, t: Text, o: nat, i: nat)
    requires o <= |s| && t == s[o..] && i < |t| && t[i] !in style.quotes
    requires !OpensComment(style, t, i) && !OpensComment(style, s, o + i)
    ensures Token(style, s, o + i) == (Code, o + i + 1) && Token(style, t, i) == (Code, i + 1)
  {
    TokenOfCode(style, t, i);
    TokenOfCode(style, s, o + i);
  }

  /** The same comment opens in both texts. */
  lemma OpensLater(style: Style, s: Text, t: Text, o: nat, i: nat)
    requires o <= |s| && t == s[o..] && i < |t|
    ensures At(t, i, "//") == At(s, o + i, "//") && At(t, i, "/*") == At(s, o + i, "/*")
    ensures OpensComment(style, t, i) <==> OpensComment(style, s, o + i)
  {
    AtLater(s, t, o, i, "//");
    AtLater(s, t, o, i, "/*");
  }

  lemma CommentLater(style: Style, s: Text, t: Text, o: nat, i: nat)
    requires o <= |s| && t == s[o..] && i < |t| && OpensComment(style, t, i) && (style.slashes ==> !style.hash)
    ensures Token(style, s, o + i) == (Comment, o + Token(style, t, i).1) && Token(style, t, i).0 == Comment
  {
    OpensLater(style, s, t, o, i);
    if style.slashes && At(t, i, "//") {
      LineLater(style, s, t, o, i);
    } else if style.slashes && At(t, i, "/*") {
      BlockLater(style, s, t, o, i);
    } else {
      HashLater(style, s, t, o, i);
    }
  }

  lemma TokenLater(style: Style, s: Text, t: Text, o: nat, i: nat, kind: Kind, end: nat)
    requires o <= |s| && t == s[o..] && i < |t| && (kind, end) == Token(style, t, i)
    requires style.slashes ==> !style.hash
    ensures Token(style, s, o + i) == (kind, o + end)
  {
    OpensLater(style, s, t, o, i);
    if OpensComment(style, t, i) {
      CommentLater(style, s, t, o, i);
    } else if t[i] in style.quotes {
      var delimiter := Delimiter(style, t, i);
      TokenOfLiteral(style, t, i, delimiter);
      SameChar(s, t, o, i);
      DelimiterLater(style, s, t, o, i, delimiter);
      LiteralLater(style, s, t, o, i, o + i, delimiter, i + |delimiter|, end);
    } else {
      CodeLater(style, s, t, o, i);
    }
  }

  lemma {:induction false} KindsLater(style: Style, s: Text, t: Text, o: nat, i: nat)
    requires o <= |s| && t == s[o..] && i <= |t| && (style.slashes ==> !style.hash)
    ensures Kinds(style, s, o + i) == Kinds(style, t, i)
    decreases |t| - i
  {
    if i < |t| {
      var (kind, end) := Token(style, t, i);
      TokenLater(style, s, t, o, i, kind, end);
      KindsFrom(style, t, i, kind, end);
      KindsFrom(style, s, o + i, kind, o + end);
      KindsLater(style, s, t, o, end);
    }
  }

  // ----- piece by piece -----

  lemma OpensDelimiter(style: Style, s: Text, delimiter: Text)
    requires Opens(style, s, delimiter)
    ensures s != [] && s[0] in style.quotes && Delimiter(style, s, 0) == delimiter
  {
    FirstOf(s, 0, delimiter);
    if |delimiter| == 1 {
      assert delimiter == [s[0]];
    }
  }

  lemma PieceIsToken(style: Style, s: Text, piece: Piece, delimiter: Text, e: nat)
    requires Plain(style) && Starts(style, s, piece, delimiter, e)
    ensures Token(style, s, 0).1 == e
    ensures Token(style, s, 0).0 == Comment <==> piece.LineComment? || piece.BlockComment? || piece.OpenComment?
  {
    FirstOf(s, 0, "//");
    FirstOf(s, 0, "/*");
    FirstOf(s, 0, "#");
    match piece
    case LineComment =>
    case BlockComment(body) => BlockEndsExactly(s, 2, e);
    case OpenComment => BlockEndsExactly(s, 2, e);
    case Quoted =>
      OpensDelimiter(style, s, delimiter);
      LiteralEndsExactly(s, |delimiter|, delimiter, e);
    case OpenQuote =>
      OpensDelimiter(style, s, delimiter);
      LiteralEndsExactly(s, |delimiter|, delimiter, e);
    case Other =>
  }

  lemma SomeBlock(style: Style, s: Text) returns (piece: Piece, e: nat)
    requires style.slashes && At(s, 0, "/*") && s != []
    ensures Starts(style, s, piece, "", e)
  {
    e := BlockEnd(s, 2, 1);
    BlockEndsExactly(s, 2, e);
    piece := if body :| Closes(body, s, 2, e) then BlockComment(body) else OpenComment;
  }

  lemma SomeLiteral(style: Style, s: Text) returns (piece: Piece, delimiter: Text, e: nat)
    requires Plain(style) && s != [] && s[0] in style.quotes
    ensures Starts(style, s, piece, delimiter, e)
  {
    delimiter := Delimiter(style, s, 0);
    e := QuoteEnd(s, |delimiter|, delimiter);
    LiteralEndsExactly(s, |delimiter|, delimiter, e);
    piece := if Starts(style, s, OpenQuote, delimiter, e) then OpenQuote else Quoted;
  }

  /** Every text starts with some piece. */
  lemma SomePiece(style: Style, s: Text) returns (piece: Piece, delimiter: Text, e: nat)
    requires Plain(style) && s != []
    ensures Starts(style, s, piece, delimiter, e)
  {
    delimiter := "";
    if OpensLine(style, s) {
      LineHasNoBreak(style, s);
      piece, e := LineComment, Token(style, s, 0).1;
    } else if style.slashes && At(s, 0, "/*") {
      piece, e := SomeBlock(style, s);
    } else if s[0] in style.quotes {
      piece, delimiter, e := SomeLiteral(style, s);
    } else {
      piece, e := Other, 1;
    }
  }

  lemma LineHasNoBreak(style: Style, s: Text)
    requires s != [] && OpensLine(style, s)
    ensures Starts(style, s, LineComment, "", Token(style, s, 0).1)
  {
    FirstOf(s, 0, "#");
    if style.slashes && At(s, 0, "//") {
      assert s[0..2][0] == '/' && s[0..2][1] == '/';
    } else {
      FirstOf(s, 0, "//");
      FirstOf(s, 0, "/*");
    }
  }

  /** The characters of m are those of s, blanked where the kinds say so. */
  ghost predicate Follows(m: Text, s: Text, kinds: seq<Kind>) {
    && |m| == |s| == |kinds|
    && forall k :: 0 <= k < |s| ==> m[k] == if kinds[k] == Comment && !LineBreak(s[k]) then ' ' else s[k]
  }

  lemma FollowsJoined(m: Text, s: Text, kinds: seq<Kind>, m1: Text, s1: Text, kinds1: seq<Kind>, m2: Text, s2: Text,
                      kinds2: seq<Kind>)
    requires s == s1 + s2 && kinds == kinds1 + kinds2
    requires Follows(m, s, kinds) && Follows(m1, s1, kinds1) && Follows(m2, s2, kinds2)
    ensures m == m1 + m2
  {
  }

  lemma ShownFollows(piece: Piece, s: Text, kind: Kind)
    requires kind == Comment <==> piece.LineComment? || piece.BlockComment? || piece.OpenComment?
    ensures Follows(Shown(piece, s), s, Times(|s|, kind))
  {
  }

  lemma MaskFollows(style: Style, s: Text)
    ensures Follows(Mask(style, s), s, From(style, s)(0))
  {
  }

  /** After the first token the kinds are those of the rest of the text. */
  lemma KindsSplit(style: Style, s: Text, rest: Text, kind: Kind, e: nat)
    requires s != [] && (style.slashes ==> !style.hash) && Token(style, s, 0) == (kind, e) && rest == s[e..]
    ensures From(style, s)(0) == Times(e, kind) + From(style, rest)(0)
  {
    FromToken(style, s, 0, kind, e);
    FromLater(style, s, rest, e);
  }

  lemma FromToken(style: Style, s: Text, i: nat, kind: Kind, e: nat)
    requires i < |s| && Token(style, s, i) == (kind, e)
    ensures From(style, s)(i) == Times(e - i, kind) + From(style, s)(e)
  {
    KindsFrom(style, s, i, kind, e);
  }

  lemma FromLater(style: Style, s: Text, rest: Text, o: nat)
    requires o <= |s| && (style.slashes ==> !style.hash) && rest == s[o..]
    ensures From(style, s)(o) == From(style, rest)(0)
  {
    KindsLater(style, s, rest, o, 0);
  }

  lemma PieceShown(m: Text, s: Text, kinds: seq<Kind>, m2: Text, rest: Text, kinds2: seq<Kind>, piece: Piece,
                   kind: Kind, e: nat)
    requires e <= |s| && rest == s[e..] && kinds == Times(e, kind) + kinds2
    requires kind == Comment <==> piece.LineComment? || piece.BlockComment? || piece.OpenComment?
    requires Follows(m, s, kinds) && Follows(m2, rest, kinds2)
    ensures m == Shown(piece, s[..e]) + m2
  {
    ShownFollows(piece, s[..e], kind);
    FollowsJoined(m, s, kinds, Shown(piece, s[..e]), s[..e], Times(e, kind), m2, rest, kinds2);
  }

  /** A mask shows the piece a text starts with, and goes on with the rest as if nothing had been before it. */
  lemma MaskOfPiece(style: Style, s: Text, piece: Piece, delimiter: Text, e: nat)
    requires Plain(style) && (style.slashes ==> !style.hash) && Starts(style, s, piece, delimiter, e)
    ensures Mask(style, s) == Shown(piece, s[..e]) + Mask(style, s[e..])
  {
    var rest, kind := s[e..], Token(style, s, 0).0;
    PieceIsToken(style, s, piece, delimiter, e);
    KindsSplit(style, s, rest, kind, e);
    MaskFollows(style, s);
    MaskFollows(style, rest);
    PieceShown(Mask(style, s), s, From(style, s)(0), Mask(style, rest), rest, From(style, rest)(0), piece, kind, e);
  }

  /**
   The three maskers: slashes open the comments of Java, Kotlin, JavaScript and Dart, a hash those of Smali, and
   each language has its own quotes.
   */
  lemma MaskersMaskPieces(style: Style, language: Style, s: Text, piece: Piece, delimiter: Text, e: nat)
    requires || (style == JAVA_KOTLIN && language == Style(true, false, {'"', '\''}, {'"'}))
             || (style == SMALI && language == Style(false, true, {'"'}, {}))
             || (style == JAVASCRIPT_DART && language == Style(true, false, {'"', '\'', '`'}, {'"', '\''}))
    requires Starts(language, s, piece, delimiter, e)
    ensures Mask(style, s) == Shown(piece, s[..e]) + Mask(style, s[e..])
  {
    StylesArePlain();
    MaskOfPiece(style, s, piece, delimiter, e);
  }
}
