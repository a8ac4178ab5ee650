/**
 JNI symbol names: the escapes of the JNI Specification (chapter 2, "Resolving Native Method Names"),
 the decoder that undoes them, and exactly which names survive the round trip. Characters are
 UTF-16 code units.
 */
module JniNames {
  import opened Wrappers
  import opened Collections

  type Text = seq<nat>

  const UNDERSCORE: nat := 95
  const DOT: nat := 46
  const SEMICOLON: nat := 59
  const BRACKET: nat := 91
  const PREFIX: Text := [74, 97, 118, 97, 95]   // Java_

  predicate IsDigit(c: nat) {
    48 <= c <= 57
  }

  predicate IsPlain(c: nat) {
    IsDigit(c) || 65 <= c <= 90 || 97 <= c <= 122
  }

  predicate IsHex(c: nat) {
    IsDigit(c) || 65 <= c <= 70 || 97 <= c <= 102
  }

  function HexValue(c: nat): (v: nat)
    requires IsHex(c)
    ensures v < 16
  {
    if IsDigit(c) then c - 48 else if c <= 70 then c - 55 else c - 87
  }

  function HexDigit(v: nat): (c: nat)
    requires v < 16
    ensures IsHex(c) && IsPlain(c) && HexValue(c) == v
  {
    if v < 10 then v + 48 else v + 87
  }

  // ----- encoding -----

  function Escape(c: nat): Text
    requires c < 0x10000
  {
    if c == UNDERSCORE then [UNDERSCORE, 49]
    else if c == SEMICOLON then [UNDERSCORE, 50]
    else if c == BRACKET then [UNDERSCORE, 51]
    else [UNDERSCORE, 48, HexDigit(c / 16 / 16 / 16), HexDigit(c / 16 / 16 % 16), HexDigit(c / 16 % 16),
          HexDigit(c % 16)]
  }

  type PlainUnit = c: nat | IsPlain(c) witness 65

  type OtherUnit = c: nat | c < 0x10000 && !IsPlain(c) witness 95

  /** A separator, a letter or digit written as it is, or an escaped code unit. */
  datatype Token = Separator | Plain(c: PlainUnit) | Escaped(e: OtherUnit)

  type Tokens = seq<Token>

  function Code(t: Token): Text {
    match t
    case Separator => [UNDERSCORE]
    case Plain(c) => [c]
    case Escaped(e) => Escape(e)
  }

  function Encode(ts: Tokens): Text {
    if ts == [] then [] else Code(ts[0]) + Encode(ts[1..])
  }

  function Meaning(t: Token, separator: nat): nat {
    match t
    case Separator => separator
    case Plain(c) => c
    case Escaped(e) => e
  }

  function Meanings(ts: seq<Token>, separator: nat): Text {
    seq(|ts|, i requires 0 <= i < |ts| => Meaning(ts[i], separator))
  }

  type Name = s: Text | forall i :: 0 <= i < |s| ==> s[i] < 0x10000

  function TokenOf(c: nat): Token
    requires c < 0x10000
  {
    if IsPlain(c) then Plain(c) else Escaped(c)
  }

  /** In a class name the dots between packages become separators. */
  function ClassTokens(name: Name): Tokens {
    seq(|name|, i requires 0 <= i < |name| => if name[i] == DOT then Separator else TokenOf(name[i]))
  }

  function MethodTokens(name: Name): Tokens {
    seq(|name|, i requires 0 <= i < |name| => TokenOf(name[i]))
  }

  function NameTokens(className: Name, methodName: Name): Tokens {
    ClassTokens(className) + [Separator] + MethodTokens(methodName)
  }

  /** The long name has an overload signature after two underscores, the short one has none. */
  function Mangle(className: Name, methodName: Name, overload: Option<Text>): Text {
    PREFIX + Encode(NameTokens(className, methodName))
    + Tail(overload)
  }

  function Tail(overload: Option<Text>): Text {
    if overload.Some? then [UNDERSCORE, UNDERSCORE] + overload.value else []
  }

  // ----- decoding -----

  predicate FourHex(s: Text, i: nat) {
    i + 4 <= |s| && IsHex(s[i]) && IsHex(s[i + 1]) && IsHex(s[i + 2]) && IsHex(s[i + 3])
  }

  predicate ShortEscapeAt(s: Text, i: nat) {
    i + 1 < |s| && s[i] == UNDERSCORE && 49 <= s[i + 1] <= 51
  }

  predicate LongEscapeAt(s: Text, i: nat) {
    i + 1 < |s| && s[i] == UNDERSCORE && s[i + 1] == 48 && FourHex(s, i + 2)
  }

  predicate EscapeAt(s: Text, i: nat) {
    ShortEscapeAt(s, i) || LongEscapeAt(s, i)
  }

  function Replacement(marker: nat): nat {
    if marker == 49 then UNDERSCORE else if marker == 50 then SEMICOLON else BRACKET
  }

  function FourHexValue(s: Text, i: nat): nat
    requires FourHex(s, i)
  {
    HexValue(s[i]) * 4096 + HexValue(s[i + 1]) * 256 + HexValue(s[i + 2]) * 16 + HexValue(s[i + 3])
  }

  /** A lone underscore stands for the separator, except as the very last character. */
  function Decode(s: Text, separator: nat): Text {
    if s == [] then []
    else if ShortEscapeAt(s, 0) then [Replacement(s[1])] + Decode(s[2..], separator)
    else if LongEscapeAt(s, 0) then [FourHexValue(s, 2)] + Decode(s[6..], separator)
    else if s[0] == UNDERSCORE && |s| > 1 then [separator] + Decode(s[1..], separator)
    else [s[0]] + Decode(s[1..], separator)
  }

  /** The first of two adjacent underscores, or |s|. */
  function DoubleAt(s: Text, from: nat): (r: nat)
    requires from <= |s|
    ensures from <= r <= |s|
    ensures r < |s| ==> r + 1 < |s| && s[r] == UNDERSCORE && s[r + 1] == UNDERSCORE
    ensures forall k :: from <= k < r && k + 1 < |s| ==> !(s[k] == UNDERSCORE && s[k + 1] == UNDERSCORE)
    decreases |s| - from
  {
    if from + 1 >= |s| then |s|
    else if s[from] == UNDERSCORE && s[from + 1] == UNDERSCORE then from
    else DoubleAt(s, from + 1)
  }

  predicate DelimiterAt(s: Text, i: nat) {
    i < |s| && s[i] == UNDERSCORE && !EscapeAt(s, i)
  }

  /** The last underscore before n that does not start an escape. */
  function LastDelimiter(s: Text, n: nat): (r: Option<nat>)
    requires n <= |s|
    ensures r.Some? ==> r.value < n && DelimiterAt(s, r.value)
    ensures forall k: nat :: (if r.Some? then r.value else -1) < k < n ==> !DelimiterAt(s, k)
  {
    if n == 0 then None
    else if DelimiterAt(s, n - 1) then Some(n - 1)
    else LastDelimiter(s, n - 1)
  }

  function SplitName(body: Text): Option<(Text, Text)> {
    match LastDelimiter(body, |body|)
    case None => None
    case Some(d) =>
      if d == 0 || d == |body| - 1 then None
      else
        var className, methodName := Decode(body[..d], DOT), Decode(body[d + 1..], UNDERSCORE);
        if className == [] || methodName == [] then None else Some((className, methodName))
  }

  function Demangle(symbol: Text): Option<(Text, Text)> {
    if !(PREFIX <= symbol) then None
    else SplitName(symbol[|PREFIX|..][..DoubleAt(symbol[|PREFIX|..], 0)])
  }

  /** What the next character or escape yields, and how many characters it takes. */
  function NextUnit(s: Text, i: nat, separator: nat): (nat, nat)
    requires i < |s|
  {
    if ShortEscapeAt(s, i) then (Replacement(s[i + 1]), 2)
    else if LongEscapeAt(s, i) then (FourHexValue(s, i + 2), 6)
    else if s[i] == UNDERSCORE && i + 1 < |s| then (separator, 1)
    else (s[i], 1)
  }

  lemma DecodeNext(s: Text, i: nat, separator: nat, output: Text)
    requires i < |s|
    ensures var (unit, width) := NextUnit(s, i, separator);
            i + width <= |s|
            && output + Decode(s[i..], separator) == (output + [unit]) + Decode(s[i + width..], separator)
  {
    var (unit, width) := NextUnit(s, i, separator);
    var t := s[i..];
    assert t[width..] == s[i + width..];
    assert Decode(t, separator) == [unit] + Decode(t[width..], separator);
  }

  /** The decoding loop of the source. */
  method DecodeComponent(component: Text, separator: nat) returns (output: Text)
    ensures output == Decode(component, separator)
  {
    output := [];
    var cursor := 0;
    while cursor < |component|
      invariant cursor <= |component|
      invariant output + Decode(component[cursor..], separator) == Decode(component, separator)
    {
      DecodeNext(component, cursor, separator, output);
      var c := component[cursor];
      var width := 1;
      if c == UNDERSCORE && cursor + 1 < |component| {
        var marker := component[cursor + 1];
        if 49 <= marker <= 51 {
          c, width := Replacement(marker), 2;
        } else if marker == 48 && FourHex(component, cursor + 2) {
          c, width := FourHexValue(component, cursor + 2), 6;
        } else {
          c := separator;
        }
      }
      output := output + [c];
      cursor := cursor + width;
    }
  }

  /** The whole decoder: cut the overload, scan backwards for the delimiter, decode both sides. */
  method DemangleJniName(symbol: Text) returns (r: Option<(Text, Text)>)
    ensures r == Demangle(symbol)
  {
    if !(PREFIX <= symbol) {
      return None;
    }
    var body := symbol[|PREFIX|..];
    var overload := DoubleAt(body, 0);
    body := body[..overload];
    var delimiter: Option<nat> := None;
    var index := |body|;
    while index > 0
      invariant 0 <= index <= |body|
      invariant delimiter.None? && LastDelimiter(body, |body|) == LastDelimiter(body, index)
    {
      if body[index - 1] != UNDERSCORE || EscapeAt(body, index - 1) {
        index := index - 1;
        continue;
      }
      delimiter := Some(index - 1);
      break;
    }
    if delimiter.None? || delimiter.value == 0 || delimiter.value == |body| - 1 {
      return None;
    }
    var className := DecodeComponent(body[..delimiter.value], DOT);
    var methodName := DecodeComponent(body[delimiter.value + 1..], UNDERSCORE);
    if className == [] || methodName == [] {
      return None;
    }
    return Some((className, methodName));
  }

  // ----- tokens and text -----

  lemma {:induction false} EncodeConcat(ts: Tokens, us: Tokens)
    ensures Encode(ts + us) == Encode(ts) + Encode(us)
    decreases |ts|
  {
    if ts == [] {
      assert ts + us == us;
    } else {
      TakeFirst(ts, us);
      EncodeCons(ts[0], ts[1..] + us);
      EncodeConcat(ts[1..], us);
      Associate(Code(ts[0]), Encode(ts[1..]), Encode(us));
    }
  }

  lemma Associate(a: Text, b: Text, c: Text)
    ensures (a + b) + c == a + (b + c)
  {
  }

  /** The following tokens turn a separator in front of them into an escape. */
  ghost predicate Merges(us: seq<Token>) {
    && us != [] && us[0].Plain?
    && (49 <= us[0].c <= 51
        || (us[0].c == 48 && |us| >= 5 && forall n :: 1 <= n < 5 ==> us[n].Plain? && IsHex(us[n].c)))
  }

  /** The first n tokens are plain, so they are the first n characters. */
  lemma {:induction false} PlainRun(us: Tokens, n: nat)
    requires n <= |us| && forall k :: 0 <= k < n ==> us[k].Plain?
    ensures |Encode(us)| >= n && Encode(us)[n..] == Encode(us[n..])
    ensures forall k :: 0 <= k < n ==> Encode(us)[k] == us[k].c
    decreases n
  {
    if n > 0 {
      PlainRun(us[1..], n - 1);
      assert us[1..][n - 1..] == us[n..];
      assert Encode(us)[1..] == Encode(us[1..]);
      assert Encode(us)[n..] == Encode(us)[1..][n - 1..];
      forall k | 0 <= k < n ensures Encode(us)[k] == us[k].c {
        if k > 0 {
          assert Encode(us)[k] == Encode(us[1..])[k - 1] && us[1..][k - 1] == us[k];
        }
      }
    }
  }

  lemma CodeStart(t: Token)
    ensures Code(t) != [] && (t.Plain? <==> Code(t)[0] != UNDERSCORE)
    ensures forall k :: 1 <= k < |Code(t)| ==> IsPlain(Code(t)[k])
    ensures t.Plain? ==> IsPlain(Code(t)[0])
  {
  }

  lemma EncodeFirst(us: Tokens)
    requires us != []
    ensures Encode(us) != [] && Encode(us)[0] == Code(us[0])[0]
    ensures us[0].Plain? <==> Encode(us)[0] != UNDERSCORE
  {
    CodeStart(us[0]);
  }

  /** As many leading hexadecimal characters as are asked for come from plain tokens. */
  lemma {:induction false} HexRun(us: Tokens, n: nat)
    requires |Encode(us)| >= n && forall k :: 0 <= k < n ==> IsPlain(Encode(us)[k])
    ensures |us| >= n && forall k :: 0 <= k < n ==> us[k].Plain? && us[k].c == Encode(us)[k]
    decreases n
  {
    if n > 0 {
      EncodeFirst(us);
      PlainRun(us, 1);
      assert Encode(us[1..]) == Encode(us)[1..];
      HexRun(us[1..], n - 1);
      forall k | 0 <= k < n ensures us[k].Plain? && us[k].c == Encode(us)[k] {
        if k > 0 {
          assert us[k] == us[1..][k - 1] && Encode(us)[k] == Encode(us[1..])[k - 1];
        }
      }
    }
  }

  /** An underscore in front of encoded tokens reads as an escape exactly when they merge with it. */
  lemma EscapeIsMerge(us: Tokens)
    ensures EscapeAt([UNDERSCORE] + Encode(us), 0) <==> Merges(us)
    ensures ShortEscapeAt([UNDERSCORE] + Encode(us), 0) ==>
            us != [] && us[0].Plain? && Encode(us)[1..] == Encode(us[1..])
    ensures LongEscapeAt([UNDERSCORE] + Encode(us), 0) ==>
                |us| >= 5 && |Encode(us)| >= 5 && Encode(us)[5..] == Encode(us[5..])
  {
    var s := [UNDERSCORE] + Encode(us);
    if us == [] {
    } else {
      EncodeFirst(us);
      if us[0].Plain? {
        PlainRun(us, 1);
      }
      if LongEscapeAt(s, 0) {
        assert forall k :: 0 <= k < 5 ==> Encode(us)[k] == s[k + 1];
        HexRun(us, 5);
        PlainRun(us, 5);
      }
      if Merges(us) && us[0].c == 48 {
        PlainRun(us, 5);
        assert forall k :: 0 <= k < 5 ==> s[k + 1] == us[k].c;
      }
    }
  }

  // ----- decoding one token -----

  lemma DecodesEscaped(e: nat, rest: Text, separator: nat)
    requires e < 0x10000
    ensures Decode(Escape(e) + rest, separator) == [e] + Decode(rest, separator)
  {
    var s := Escape(e) + rest;
    if |Escape(e)| == 2 {
      assert s[2..] == rest;
    } else {
      assert s[6..] == rest;
      HexEscape(e, rest);
    }
  }

  lemma HexEscape(e: nat, rest: Text)
    requires e < 0x10000 && |Escape(e)| == 6
    ensures var s := Escape(e) + rest; LongEscapeAt(s, 0) && !ShortEscapeAt(s, 0) && FourHexValue(s, 2) == e
  {
    var s := Escape(e) + rest;
    var a, b, c := e / 16, e / 16 / 16, e / 16 / 16 / 16;
    assert s[2] == HexDigit(c) && s[3] == HexDigit(b % 16) && s[4] == HexDigit(a % 16) && s[5] == HexDigit(e % 16);
    assert e == a * 16 + e % 16 && a == b * 16 + a % 16 && b == c * 16 + b % 16;
  }

  lemma DecodesPlain(c: nat, rest: Text, separator: nat)
    requires IsPlain(c)
    ensures Decode([c] + rest, separator) == [c] + Decode(rest, separator)
  {
    assert ([c] + rest)[1..] == rest;
  }

  lemma DecodesSeparator(us: Tokens, separator: nat)
    requires us != [] && !Merges(us)
    ensures Decode([UNDERSCORE] + Encode(us), separator) == [separator] + Decode(Encode(us), separator)
  {
    EscapeIsMerge(us);
    EncodeFirst(us);
    assert ([UNDERSCORE] + Encode(us))[1..] == Encode(us);
  }

  /** No separator is swallowed by what follows it. */
  ghost predicate Clear(ts: seq<Token>) {
    forall i :: 0 <= i < |ts| && ts[i].Separator? ==> !Merges(ts[i + 1..])
  }

  lemma ClearTail(ts: seq<Token>)
    requires ts != []
    ensures Clear(ts) <==> Clear(ts[1..]) && (ts[0].Separator? ==> !Merges(ts[1..]))
  {
    forall i | 0 <= i < |ts[1..]| ensures ts[1..][i + 1..] == ts[i + 2..] && ts[1..][i] == ts[i + 1] {
    }
    if Clear(ts[1..]) && (ts[0].Separator? ==> !Merges(ts[1..])) {
      forall i | 0 <= i < |ts| && ts[i].Separator? ensures !Merges(ts[i + 1..]) {
        if i > 0 {
          assert ts[1..][i - 1] == ts[i];
        }
      }
    }
    if Clear(ts) {
      forall i | 0 <= i < |ts[1..]| && ts[1..][i].Separator? ensures !Merges(ts[1..][i + 1..]) {
        assert ts[i + 1].Separator?;
      }
    }
  }

  lemma MeaningsCons(ts: seq<Token>, separator: nat)
    requires ts != []
    ensures Meanings(ts, separator) == [Meaning(ts[0], separator)] + Meanings(ts[1..], separator)
  {
  }

  /** Clear tokens that do not end in a separator decode to what they mean. */
  lemma {:induction false} DecodesClear(ts: Tokens, separator: nat)
    requires Clear(ts) && (ts != [] ==> !ts[|ts| - 1].Separator?)
    ensures Decode(Encode(ts), separator) == Meanings(ts, separator)
    decreases |ts|
  {
    if ts != [] {
      ClearTail(ts);
      DecodesClear(ts[1..], separator);
      MeaningsCons(ts, separator);
      match ts[0]
      case Separator => DecodesSeparator(ts[1..], separator);
      case Plain(c) => DecodesPlain(c, Encode(ts[1..]), separator);
      case Escaped(e) => DecodesEscaped(e, Encode(ts[1..]), separator);
    }
  }

  /** Decoding never yields more characters than there are tokens, and fewer if a separator is swallowed. */
  lemma {:induction false} DecodesNoMore(ts: Tokens, separator: nat)
    ensures |Decode(Encode(ts), separator)| <= |ts|
    ensures !Clear(ts) ==> |Decode(Encode(ts), separator)| < |ts|
    decreases |ts|
  {
    if ts != [] {
      ClearTail(ts);
      var us := ts[1..];
      match ts[0]
      case Plain(c) =>
        DecodesNoMore(us, separator);
        DecodesPlain(c, Encode(us), separator);
      case Escaped(e) =>
        DecodesNoMore(us, separator);
        DecodesEscaped(e, Encode(us), separator);
      case Separator =>
        if Merges(us) {
          DecodesMerged(us, separator);
        } else if us == [] {
          assert Encode(ts) == [UNDERSCORE];
        } else {
          DecodesNoMore(us, separator);
          DecodesSeparator(us, separator);
        }
    }
  }

  lemma DecodesMerged(us: Tokens, separator: nat)
    requires Merges(us)
    ensures |Decode([UNDERSCORE] + Encode(us), separator)| < |us| + 1
    decreases |us|, 0
  {
    EscapeIsMerge(us);
    var s := [UNDERSCORE] + Encode(us);
    if ShortEscapeAt(s, 0) {
      assert s[2..] == Encode(us[1..]);
      DecodesNoMore(us[1..], separator);
    } else {
      assert s[6..] == Encode(us[5..]);
      DecodesNoMore(us[5..], separator);
    }
  }

  // ----- underscores and boundaries -----

  /** Every underscore begins a token. */
  lemma {:induction false} UnderscoreBegins(ts: Tokens, i: nat) returns (k: nat)
    requires i < |Encode(ts)| && Encode(ts)[i] == UNDERSCORE
    ensures k < |ts| && !ts[k].Plain?
    ensures Encode(ts[..k]) == Encode(ts)[..i] && Encode(ts[k..]) == Encode(ts)[i..]
    decreases |ts|
  {
    var n := |Code(ts[0])|;
    CodeStart(ts[0]);
    if i == 0 {
      k := 0;
      EncodeFirst(ts);
    } else {
      assert forall m :: 1 <= m < n ==> Encode(ts)[m] == Code(ts[0])[m];
      assert i >= n;
      var j := UnderscoreBegins(ts[1..], i - n);
      k := j + 1;
      ConsSlices(Code(ts[0]), Encode(ts[1..]), i);
      EncodeCons(ts[0], ts[1..][..j]);
      assert ts[..k] == [ts[0]] + ts[1..][..j];
      assert ts[k..] == ts[1..][j..];
    }
  }

  lemma EncodeCons(t: Token, ts: Tokens)
    ensures Encode([t] + ts) == Code(t) + Encode(ts)
  {
    assert ([t] + ts)[1..] == ts;
  }

  lemma ConsSlices(a: Text, b: Text, i: nat)
    requires |a| <= i <= |a + b|
    ensures (a + b)[..i] == a + b[..i - |a|] && (a + b)[i..] == b[i - |a|..]
  {
  }

  /** Every separator is followed by a plain token that it cannot merge with. */
  ghost predicate AllOpen(ts: seq<Token>) {
    forall i :: 0 <= i < |ts| && ts[i].Separator? ==> OpenAt(ts, i)
  }

  ghost predicate OpenAt(ts: seq<Token>, i: nat) {
    i + 1 < |ts| && ts[i + 1].Plain? && !Merges(ts[i + 1..])
  }

  /** Then no two underscores are adjacent, and the text does not end in one. */
  lemma {:induction false} NoAdjacent(ts: Tokens)
    requires AllOpen(ts)
    ensures var s := Encode(ts);
            && (s != [] ==> s[|s| - 1] != UNDERSCORE)
            && forall k :: 0 <= k && k + 1 < |s| ==> !(s[k] == UNDERSCORE && s[k + 1] == UNDERSCORE)
    decreases |ts|
  {
    if ts != [] {
      var s, code, rest := Encode(ts), Code(ts[0]), Encode(ts[1..]);
      CodeStart(ts[0]);
      forall i | 0 <= i < |ts[1..]| && ts[1..][i].Separator? ensures OpenAt(ts[1..], i) {
        assert ts[i + 1].Separator? && OpenAt(ts, i + 1) && ts[1..][i + 1..] == ts[i + 2..];
      }
      NoAdjacent(ts[1..]);
      if ts[1..] != [] {
        EncodeFirst(ts[1..]);
      }
      forall k | 0 <= k && k + 1 < |s| ensures !(s[k] == UNDERSCORE && s[k + 1] == UNDERSCORE) {
        if k >= |code| {
          assert s[k] == rest[k - |code|] && s[k + 1] == rest[k + 1 - |code|];
        } else if k + 1 < |code| {
          assert s[k + 1] == code[k + 1];
        } else {
          assert s[k + 1] == rest[0];
          assert ts[0].Separator? ==> OpenAt(ts, 0);
        }
      }
    }
  }

  // ----- the round trip, exactly -----

  /** A part of a name that can stand behind a separator. */
  predicate StartsWell(part: Name) {
    && part != [] && IsPlain(part[0])
    && !(49 <= part[0] <= 51) && !(part[0] == 48 && FourHex(part, 1))
  }

  /** Neither name is empty, and the method and what follows each dot of the class start well. */
  predicate Recoverable(className: Name, methodName: Name) {
    && className != [] && StartsWell(methodName)
    && forall i :: 0 <= i < |className| && className[i] == DOT ==> StartsWell(className[i + 1..])
  }

  lemma ClassTokensTail(name: Name, i: nat)
    requires i <= |name|
    ensures ClassTokens(name)[i..] == ClassTokens(name[i..])
  {
  }

  /** Starting well is opening: a plain first token that the separator cannot merge with. */
  lemma StartsWellIsOpen(name: Name, ts: seq<Token>, rest: seq<Token>)
    requires |ts| == |name|
    requires forall i :: 0 <= i < |name| ==>
                 (IsPlain(name[i]) ==> ts[i] == Plain(name[i])) && (!IsPlain(name[i]) ==> !ts[i].Plain?)
    requires rest == [] || rest[0].Separator?
    ensures StartsWell(name) <==> ts + rest != [] && (ts + rest)[0].Plain? && !Merges(ts + rest)
  {
    var us := ts + rest;
    if name != [] && IsPlain(name[0]) {
      assert us[0] == Plain(name[0]);
      if |name| >= 5 {
        assert forall n :: 1 <= n < 5 ==> us[n] == ts[n];
        assert FourHex(name, 1) <==> forall n :: 1 <= n < 5 ==> us[n].Plain? && IsHex(us[n].c) by {
          if FourHex(name, 1) {
            forall n | 1 <= n < 5 ensures us[n].Plain? && IsHex(us[n].c) {
              assert n == 1 || n == 2 || n == 3 || n == 4;
            }
          } else {
            assert exists n :: 1 <= n < 5 && !IsHex(name[n]) by {
              assert !IsHex(name[1]) || !IsHex(name[2]) || !IsHex(name[3]) || !IsHex(name[4]);
            }
          }
        }
      } else if |us| >= 5 {
        assert us[|name|].Separator?;
      }
    }
  }

  lemma OpenInClass(className: Name, methodName: Name, i: nat)
    requires i < |className|
    ensures var ts := NameTokens(className, methodName);
            (ts[i].Separator? <==> className[i] == DOT) && (StartsWell(className[i + 1..]) <==> OpenAt(ts, i))
  {
    var part, rest := className[i + 1..], [Separator] + MethodTokens(methodName);
    ClassTokensTail(className, i + 1);
    assert NameTokens(className, methodName)[i + 1..] == ClassTokens(part) + rest;
    StartsWellIsOpen(part, ClassTokens(part), rest);
  }

  lemma OpenInMethod(className: Name, methodName: Name)
    ensures var ts, n := NameTokens(className, methodName), |className|;
            && ts[n].Separator? && (StartsWell(methodName) <==> OpenAt(ts, n))
            && forall i :: n < i < |ts| ==> !ts[i].Separator?
  {
    var ts, mt, n := NameTokens(className, methodName), MethodTokens(methodName), |className|;
    assert ts[n + 1..] == mt && mt + [] == mt;
    StartsWellIsOpen(methodName, mt, []);
    forall i | n < i < |ts| ensures !ts[i].Separator? {
      assert ts[i] == mt[i - n - 1];
    }
  }

  lemma RecoverableIsOpen(className: Name, methodName: Name)
    ensures Recoverable(className, methodName) <==> className != [] && AllOpen(NameTokens(className, methodName))
  {
    var ts, n := NameTokens(className, methodName), |className|;
    forall i | 0 <= i < n ensures (ts[i].Separator? <==> className[i] == DOT)
        && (StartsWell(className[i + 1..]) <==> OpenAt(ts, i)) {
      OpenInClass(className, methodName, i);
    }
    OpenInMethod(className, methodName);
    if AllOpen(ts) {
      forall i | 0 <= i < |className| && className[i] == DOT ensures StartsWell(className[i + 1..]) {
        assert OpenAt(ts, i);
      }
    }
    if Recoverable(className, methodName) {
      forall i | 0 <= i < |ts| && ts[i].Separator? ensures OpenAt(ts, i) {
        assert i < |className| ==> className[i] == DOT;
      }
    }
  }

  lemma MethodHasNoDelimiter(mt: Tokens, i: nat)
    requires forall k :: 0 <= k < |mt| ==> !mt[k].Separator?
    requires i < |Encode(mt)| && Encode(mt)[i] == UNDERSCORE
    ensures EscapeAt(Encode(mt), i)
  {
    var k := UnderscoreBegins(mt, i);
    EscapedIsEscape(mt[k..]);
    assert Encode(mt)[i..] == Encode(mt[k..]);
  }

  lemma EscapedIsEscape(ts: Tokens)
    requires ts != [] && ts[0].Escaped?
    ensures EscapeAt(Encode(ts), 0)
  {
  }

  lemma EscapeShifts(s: Text, i: nat)
    requires i <= |s|
    ensures EscapeAt(s, i) <==> EscapeAt(s[i..], 0)
  {
  }

  lemma LastDelimiterIs(s: Text, n: nat, d: nat)
    requires d < n <= |s| && DelimiterAt(s, d) && forall k :: d < k < n ==> !DelimiterAt(s, k)
    ensures LastDelimiter(s, n) == Some(d)
  {
  }

  lemma NoLaterDelimiter(left: Text, mt: Tokens)
    requires forall k :: 0 <= k < |mt| ==> !mt[k].Separator?
    ensures var body := left + [UNDERSCORE] + Encode(mt);
            forall k :: |left| < k < |body| ==> !DelimiterAt(body, k)
  {
    var right := Encode(mt);
    var body := left + [UNDERSCORE] + right;
    forall k | |left| < k < |body| ensures !DelimiterAt(body, k) {
      var i := k - |left| - 1;
      assert body[k..] == right[i..];
      if body[k] == UNDERSCORE {
        MethodHasNoDelimiter(mt, i);
        EscapeShifts(body, k);
        EscapeShifts(right, i);
      }
    }
  }

  /** Open tokens split where they were joined, and both sides decode to what they mean. */
  lemma JoinedText(ct: Tokens, mt: Tokens)
    ensures Encode(ct + [Separator] + mt) == Encode(ct) + [UNDERSCORE] + Encode(mt)
  {
    EncodeConcat(ct + [Separator], mt);
    EncodeConcat(ct, [Separator]);
    assert Encode([Separator]) == [UNDERSCORE];
  }

  /** Between left and right stands the last delimiter. */
  ghost predicate Delimits(left: Text, right: Text) {
    var body := left + [UNDERSCORE] + right;
    DelimiterAt(body, |left|) && forall k :: |left| < k < |body| ==> !DelimiterAt(body, k)
  }

  lemma DelimiterFound(left: Text, mt: Tokens)
    requires !Merges(mt) && forall k :: 0 <= k < |mt| ==> !mt[k].Separator?
    ensures Delimits(left, Encode(mt))
  {
    EscapeIsMerge(mt);
    DelimiterInFront(left, Encode(mt));
    NoLaterDelimiter(left, mt);
  }

  lemma DelimiterInFront(left: Text, right: Text)
    requires !EscapeAt([UNDERSCORE] + right, 0)
    ensures DelimiterAt(left + [UNDERSCORE] + right, |left|)
  {
    var body := left + [UNDERSCORE] + right;
    EscapeShifts(body, |left|);
    assert body[|left|..] == [UNDERSCORE] + right;
  }

  lemma SplitsOpen(ct: Tokens, mt: Tokens)
    requires ct != [] && forall k :: 0 <= k < |mt| ==> !mt[k].Separator?
    requires AllOpen(ct + [Separator] + mt)
    ensures SplitName(Encode(ct + [Separator] + mt)) == Some((Meanings(ct, DOT), Meanings(mt, UNDERSCORE)))
  {
    JoinedText(ct, mt);
    OpenMethod(ct, mt);
    OpenSides(ct, mt);
    SplitsBetween(ct, mt);
  }

  lemma OpenMethod(ct: seq<Token>, mt: seq<Token>)
    requires AllOpen(ct + [Separator] + mt)
    ensures mt != [] && !Merges(mt)
  {
    var ts := ct + [Separator] + mt;
    assert ts[|ct|].Separator? && ts[|ct| + 1..] == mt;
    assert OpenAt(ts, |ct|);
  }

  lemma SplitsBetween(ct: Tokens, mt: Tokens)
    requires Encode(ct) != [] && Encode(mt) != [] && !Merges(mt) && forall k :: 0 <= k < |mt| ==> !mt[k].Separator?
    requires Decode(Encode(ct), DOT) != [] && Decode(Encode(mt), UNDERSCORE) != []
    ensures SplitName(Encode(ct) + [UNDERSCORE] + Encode(mt))
            == Some((Decode(Encode(ct), DOT), Decode(Encode(mt), UNDERSCORE)))
  {
    DelimiterFound(Encode(ct), mt);
    SplitsAround(Encode(ct), Encode(mt));
  }

  lemma OpenSides(ct: Tokens, mt: Tokens)
    requires ct != [] && forall k :: 0 <= k < |mt| ==> !mt[k].Separator?
    requires AllOpen(ct + [Separator] + mt)
    ensures Encode(ct) != [] && Encode(mt) != []
    ensures Decode(Encode(ct), DOT) == Meanings(ct, DOT) && Decode(Encode(mt), UNDERSCORE) == Meanings(mt, UNDERSCORE)
  {
    OpenMethod(ct, mt);
    EncodeFirst(ct);
    EncodeFirst(mt);
    ClassIsClear(ct, mt);
    MethodIsClear(mt);
    DecodesClear(ct, DOT);
    DecodesClear(mt, UNDERSCORE);
  }

  lemma SplitsAround(left: Text, right: Text)
    requires left != [] && right != []
    requires Delimits(left, right)
    requires Decode(left, DOT) != [] && Decode(right, UNDERSCORE) != []
    ensures SplitName(left + [UNDERSCORE] + right) == Some((Decode(left, DOT), Decode(right, UNDERSCORE)))
  {
    var body := left + [UNDERSCORE] + right;
    LastDelimiterIs(body, |body|, |left|);
    assert body[..|left|] == left && body[|left| + 1..] == right;
  }

  lemma ClassIsClear(ct: seq<Token>, mt: seq<Token>)
    requires ct != [] && AllOpen(ct + [Separator] + mt)
    ensures Clear(ct) && !ct[|ct| - 1].Separator?
  {
    var ts := ct + [Separator] + mt;
    forall i | 0 <= i < |ct| && ct[i].Separator? ensures !Merges(ct[i + 1..]) {
      assert ts[i].Separator? && OpenAt(ts, i);
      assert ts[i + 1..][..|ct[i + 1..]|] == ct[i + 1..];
    }
    assert ts[|ct|] == Separator;
    assert ts[|ct| - 1] == ct[|ct| - 1];
  }

  lemma MethodIsClear(mt: seq<Token>)
    requires forall k :: 0 <= k < |mt| ==> !mt[k].Separator?
    ensures Clear(mt)
  {
  }

  /** What it takes for a body to split. */
  lemma SplitFacts(body: Text) returns (d: nat)
    requires SplitName(body).Some?
    ensures 0 < d < |body| - 1 && DelimiterAt(body, d)
    ensures !DelimiterAt(body, |body| - 1)
    ensures SplitName(body) == Some((Decode(body[..d], DOT), Decode(body[d + 1..], UNDERSCORE)))
  {
    d := LastDelimiter(body, |body|).value;
  }

  /** The tokens from a delimiter on: a separator and what follows it. */
  lemma DelimiterIsSeparator(us: Tokens, d: nat) returns (j: nat)
    requires DelimiterAt(Encode(us), d)
    ensures j < |us| && us[j].Separator? && !Merges(us[j + 1..])
    ensures Encode(us)[..d] == Encode(us[..j]) && Encode(us)[d + 1..] == Encode(us[j + 1..])
  {
    var body := Encode(us);
    j := UnderscoreBegins(us, d);
    EscapeShifts(body, d);
    if us[j].Escaped? {
      EscapedIsEscape(us[j..]);
    }
    assert us[j..][1..] == us[j + 1..];
    assert body[d..] == [UNDERSCORE] + Encode(us[j + 1..]);
    assert body[d + 1..] == body[d..][1..];
    EscapeIsMerge(us[j + 1..]);
  }

  lemma EndsInUnderscore(us: Tokens)
    requires us != [] && us[|us| - 1].Separator?
    ensures Encode(us) != [] && DelimiterAt(Encode(us), |Encode(us)| - 1)
  {
    EncodeConcat(us[..|us| - 1], [Separator]);
    assert us[..|us| - 1] + [Separator] == us;
    assert Encode([Separator]) == [UNDERSCORE];
  }

  /** Where a split body was cut, in tokens: both sides are encodings, around a separator. */
  lemma SplitInTokens(us: Tokens) returns (j: nat)
    requires SplitName(Encode(us)).Some?
    ensures j < |us| && us[j].Separator? && !Merges(us[j + 1..]) && !us[|us| - 1].Separator?
    ensures SplitName(Encode(us)) == Some((Decode(Encode(us[..j]), DOT), Decode(Encode(us[j + 1..]), UNDERSCORE)))
  {
    var d := SplitFacts(Encode(us));
    j := DelimiterIsSeparator(us, d);
    if us[|us| - 1].Separator? {
      EndsInUnderscore(us);
    }
  }

  /** If the split gives back as many characters as went in, every separator was open. */
  lemma SplitNeedsOpen(ts: Tokens, p: nat, c: Text, m: Text)
    requires p <= |Encode(ts)|
    requires p < |Encode(ts)| ==> Encode(ts)[p] == UNDERSCORE
    requires p == |Encode(ts)| ==> DoubleAt(Encode(ts), 0) == p
    requires SplitName(Encode(ts)[..p]) == Some((c, m)) && |c| + |m| + 1 >= |ts|
    ensures AllOpen(ts)
  {
    var j := SplitIsWhole(ts, p, c, m);
    forall i | 0 <= i < |ts| && ts[i].Separator? ensures OpenAt(ts, i) {
      SeparatorIsOpen(ts, j, i);
    }
  }

  /** With so many characters, the body was not cut and no separator was swallowed on either side. */
  lemma SplitIsWhole(ts: Tokens, p: nat, c: Text, m: Text) returns (j: nat)
    requires p <= |Encode(ts)|
    requires p < |Encode(ts)| ==> Encode(ts)[p] == UNDERSCORE
    requires SplitName(Encode(ts)[..p]) == Some((c, m)) && |c| + |m| + 1 >= |ts|
    ensures p == |Encode(ts)| && j < |ts| && ts[j].Separator? && !Merges(ts[j + 1..])
    ensures Clear(ts[..j]) && Clear(ts[j + 1..]) && !ts[|ts| - 1].Separator?
  {
    var k := PrefixInTokens(ts, p);
    j := TightSplit(ts[..k], c, m);
    assert |ts[..k]| == k && ts[..|ts|] == ts;
  }

  lemma TightSplit(us: Tokens, c: Text, m: Text) returns (j: nat)
    requires SplitName(Encode(us)) == Some((c, m))
    ensures j < |us| && us[j].Separator? && !Merges(us[j + 1..]) && !us[|us| - 1].Separator?
    ensures |c| + |m| + 1 <= |us| && (|c| + |m| + 1 == |us| ==> Clear(us[..j]) && Clear(us[j + 1..]))
  {
    j := SplitInTokens(us);
    BothSidesTight(us, j);
  }

  lemma BothSidesTight(us: Tokens, j: nat)
    requires j < |us|
    ensures var c, m := |Decode(Encode(us[..j]), DOT)|, |Decode(Encode(us[j + 1..]), UNDERSCORE)|;
            && c + m + 1 <= |us|
            && (c + m + 1 == |us| ==> Clear(us[..j]) && Clear(us[j + 1..]))
  {
    DecodesNoMore(us[..j], DOT);
    DecodesNoMore(us[j + 1..], UNDERSCORE);
  }

  lemma PrefixInTokens(ts: Tokens, p: nat) returns (k: nat)
    requires p <= |Encode(ts)|
    requires p < |Encode(ts)| ==> Encode(ts)[p] == UNDERSCORE
    ensures k <= |ts| && Encode(ts[..k]) == Encode(ts)[..p] && (k == |ts| ==> p == |Encode(ts)|)
  {
    if p < |Encode(ts)| {
      k := UnderscoreBegins(ts, p);
    } else {
      k := |ts|;
      assert ts[..k] == ts && Encode(ts)[..p] == Encode(ts);
    }
  }

  lemma SeparatorIsOpen(ts: Tokens, j: nat, i: nat)
    requires j < |ts| && ts[j].Separator? && i < |ts| && ts[i].Separator?
    requires DoubleAt(Encode(ts), 0) == |Encode(ts)|
    requires Clear(ts[..j]) && Clear(ts[j + 1..]) && !Merges(ts[j + 1..])
    requires !ts[|ts| - 1].Separator?
    ensures OpenAt(ts, i)
  {
    FollowedByPlain(ts, i);
    if i < j {
      OpenInFront(ts, j, i);
    } else if i > j {
      OpenBehind(ts, j, i);
    }
  }

  lemma OpenInFront(ts: seq<Token>, j: nat, i: nat)
    requires i < j < |ts| && ts[j].Separator? && ts[i].Separator? && Clear(ts[..j])
    ensures !Merges(ts[i + 1..])
  {
    var behind := ts[i + 1..];
    assert ts[..j][i].Separator? && ts[..j][i + 1..] == behind[..j - i - 1];
    MergesEarly(behind, j - i - 1);
  }

  lemma OpenBehind(ts: seq<Token>, j: nat, i: nat)
    requires j < i < |ts| && ts[i].Separator? && Clear(ts[j + 1..])
    ensures !Merges(ts[i + 1..])
  {
    assert ts[j + 1..][i - j - 1].Separator? && ts[j + 1..][i - j..] == ts[i + 1..];
  }

  lemma FollowedByPlain(ts: Tokens, i: nat)
    requires i + 1 < |ts| && ts[i].Separator? && DoubleAt(Encode(ts), 0) == |Encode(ts)|
    ensures ts[i + 1].Plain?
  {
    Around(ts, i);
    JoinedText(ts[..i], ts[i + 1..]);
    EncodeFirst(ts[i + 1..]);
    NotDoubled(Encode(ts), Encode(ts[..i]), Encode(ts[i + 1..]));
  }

  lemma Around(ts: Tokens, i: nat)
    requires i < |ts| && ts[i].Separator?
    ensures ts[..i] + [Separator] + ts[i + 1..] == ts
  {
  }

  lemma NotDoubled(s: Text, left: Text, right: Text)
    requires s == left + [UNDERSCORE] + right && right != [] && DoubleAt(s, 0) == |s|
    ensures right[0] != UNDERSCORE
  {
    assert s[|left|] == UNDERSCORE && s[|left| + 1] == right[0];
  }

  /** Merging happens before any later separator. */
  lemma MergesEarly(us: seq<Token>, n: nat)
    requires n < |us| && us[n].Separator?
    ensures Merges(us) ==> Merges(us[..n])
  {
  }

  lemma {:induction false} CutAtEnd(s: Text, tail: Text, from: nat)
    requires from <= |s| && (tail == [] || (|tail| >= 2 && tail[0] == UNDERSCORE && tail[1] == UNDERSCORE))
    ensures DoubleAt(s + tail, from) <= |s|
    ensures DoubleAt(s + tail, from) == |s| ==> DoubleAt(s, from) == |s|
    decreases |s| - from
  {
    var t := s + tail;
    if from < |s| && !(from + 1 < |t| && t[from] == UNDERSCORE && t[from + 1] == UNDERSCORE) {
      CutAtEnd(s, tail, from + 1);
    }
  }

  lemma CutOfOpen(s: Text, tail: Text)
    requires tail == [] || (|tail| >= 2 && tail[0] == UNDERSCORE && tail[1] == UNDERSCORE)
    requires s != [] ==> s[|s| - 1] != UNDERSCORE
    requires forall k :: 0 <= k && k + 1 < |s| ==> !(s[k] == UNDERSCORE && s[k + 1] == UNDERSCORE)
    ensures DoubleAt(s + tail, 0) == |s|
  {
    var t := s + tail;
    CutAtEnd(s, tail, 0);
    assert forall k :: 0 <= k < |s| ==> t[k] == s[k];
  }

  lemma MeaningsOfName(className: Name, methodName: Name)
    ensures Meanings(ClassTokens(className), DOT) == className
    ensures Meanings(MethodTokens(methodName), UNDERSCORE) == methodName
  {
  }

  /** What is left of a mangled name once prefix and overload are off: at most the encoded names. */
  lemma BodyOfMangled(className: Name, methodName: Name, overload: Option<Text>) returns (p: nat)
    ensures var s := Encode(NameTokens(className, methodName));
            && p <= |s| && p == DoubleAt(s + Tail(overload), 0)
            && (p < |s| ==> s[p] == UNDERSCORE) && (p == |s| ==> DoubleAt(s, 0) == p)
            && Demangle(Mangle(className, methodName, overload)) == SplitName(s[..p])
  {
    var s, tail := Encode(NameTokens(className, methodName)), Tail(overload);
    p := DoubleAt(s + tail, 0);
    CutBody(s, tail);
    Associate(PREFIX, s, tail);
    DemangleDropsPrefix(Mangle(className, methodName, overload), s + tail);
  }

  lemma CutBody(s: Text, tail: Text)
    requires tail == [] || (|tail| >= 2 && tail[0] == UNDERSCORE && tail[1] == UNDERSCORE)
    ensures var p := DoubleAt(s + tail, 0);
            && p <= |s| && (s + tail)[..p] == s[..p]
            && (p < |s| ==> s[p] == UNDERSCORE) && (p == |s| ==> DoubleAt(s, 0) == p)
  {
    var p := DoubleAt(s + tail, 0);
    CutAtEnd(s, tail, 0);
    assert p < |s| ==> s[p] == (s + tail)[p];
  }

  lemma DemangleDropsPrefix(symbol: Text, body: Text)
    requires symbol == PREFIX + body
    ensures Demangle(symbol) == SplitName(body[..DoubleAt(body, 0)])
  {
    assert symbol[|PREFIX|..] == body && PREFIX <= symbol;
  }

  lemma WholeBodySplits(className: Name, methodName: Name, overload: Option<Text>)
    requires Recoverable(className, methodName)
    ensures Demangle(Mangle(className, methodName, overload)) == SplitName(Encode(NameTokens(className, methodName)))
  {
    var ts := NameTokens(className, methodName);
    var p := BodyOfMangled(className, methodName, overload);
    RecoverableIsOpen(className, methodName);
    NoAdjacent(ts);
    CutOfOpen(Encode(ts), Tail(overload));
    assert Encode(ts)[..p] == Encode(ts);
  }

  lemma RecoverableRoundTrip(className: Name, methodName: Name, overload: Option<Text>)
    requires Recoverable(className, methodName)
    ensures Demangle(Mangle(className, methodName, overload)) == Some((className, methodName))
  {
    WholeBodySplits(className, methodName, overload);
    RecoverableIsOpen(className, methodName);
    SplitsOpen(ClassTokens(className), MethodTokens(methodName));
    MeaningsOfName(className, methodName);
  }

  /**
   Demangling the mangled name of a method gives back the class and the method exactly when the names
   are recoverable, with or without an overload signature.
   */
  lemma DemangleUndoesMangle(className: Name, methodName: Name, overload: Option<Text>)
    ensures Demangle(Mangle(className, methodName, overload)) == Some((className, methodName))
       <==> Recoverable(className, methodName)
  {
    if Recoverable(className, methodName) {
      RecoverableRoundTrip(className, methodName, overload);
    } else if Demangle(Mangle(className, methodName, overload)) == Some((className, methodName)) {
      var p := BodyOfMangled(className, methodName, overload);
      SplitNeedsOpen(NameTokens(className, methodName), p, className, methodName);
      RecoverableIsOpen(className, methodName);
      assert className == [];
      SomeIsNotEmpty(Encode(NameTokens(className, methodName))[..p]);
    }
  }

  lemma SomeIsNotEmpty(body: Text)
    ensures SplitName(body).Some? ==> SplitName(body).value.0 != []
  {
  }

  /** A method whose Java name starts with an underscore is a legal name that is not recovered. */
  lemma LeadingUnderscoreIsLost(className: Name, rest: Name)
    ensures Demangle(Mangle(className, [UNDERSCORE] + rest, None)) != Some((className, [UNDERSCORE] + rest))
  {
    var methodName: Name := [UNDERSCORE] + rest;
    DemangleUndoesMangle(className, methodName, None);
    assert !StartsWell(methodName);
  }

  // ----- any symbol at all -----

  /** What is looked at: the symbol without its prefix, up to the first two adjacent underscores. */
  function Body(symbol: Text): Text
    requires PREFIX <= symbol
  {
    symbol[|PREFIX|..][..DoubleAt(symbol[|PREFIX|..], 0)]
  }

  /** In front of a delimiter no escape reaches over it, so what is read from k on is the same with or without the
   rest. */
  lemma EscapesInFront(s: Text, d: nat, k: nat)
    requires k < d < |s| && s[d] == UNDERSCORE
    ensures ShortEscapeAt(s[..d], k) <==> ShortEscapeAt(s, k)
    ensures LongEscapeAt(s[..d], k) <==> LongEscapeAt(s, k)
    ensures LongEscapeAt(s, k) ==> k + 6 <= d && FourHexValue(s[..d], k + 2) == FourHexValue(s, k + 2)
    ensures ShortEscapeAt(s, k) ==> k + 2 <= d
  {
  }

  lemma SameNextUnit(s: Text, d: nat, k: nat, separator: nat)
    requires k < d < |s| && DelimiterAt(s, d) && s[d - 1] != UNDERSCORE
    ensures NextUnit(s[..d], k, separator) == NextUnit(s, k, separator)
    ensures k + NextUnit(s, k, separator).1 <= d
  {
    EscapesInFront(s, d, k);
  }

  lemma DecodeOne(s: Text, i: nat, separator: nat)
    requires i < |s|
    ensures var (unit, width) := NextUnit(s, i, separator);
            i + width <= |s| && Decode(s[i..], separator) == [unit] + Decode(s[i + width..], separator)
  {
    DecodeNext(s, i, separator, []);
  }

  /** Decoding from k on splits at a delimiter that no underscore precedes. */
  lemma {:induction false} DecodeSplitsFrom(s: Text, k: nat, d: nat, separator: nat)
    requires k <= d && d + 1 < |s| && DelimiterAt(s, d) && (d > 0 ==> s[d - 1] != UNDERSCORE)
    ensures Decode(s[k..], separator) == Decode(s[..d][k..], separator) + [separator] + Decode(s[d + 1..], separator)
    decreases d - k
  {
    if k == d {
      DecodeOne(s, d, separator);
    } else {
      var (unit, width) := NextUnit(s, k, separator);
      SameNextUnit(s, d, k, separator);
      DecodeOne(s, k, separator);
      DecodeOne(s[..d], k, separator);
      DecodeSplitsFrom(s, k + width, d, separator);
      Associate([unit], Decode(s[..d][k + width..], separator), [separator]);
      Associate([unit], Decode(s[..d][k + width..], separator) + [separator], Decode(s[d + 1..], separator));
    }
  }

  /**
   On any text the decoder that reads left to right agrees with the scan that looks for delimiters from the
   right: it decodes what is in front of a delimiter, a separator, and what is behind it.
   */
  lemma DecodeSplits(s: Text, d: nat, separator: nat)
    requires d + 1 < |s| && DelimiterAt(s, d) && (d > 0 ==> s[d - 1] != UNDERSCORE)
    ensures Decode(s, separator) == Decode(s[..d], separator) + [separator] + Decode(s[d + 1..], separator)
  {
    DecodeSplitsFrom(s, 0, d, separator);
    assert s[0..] == s && s[..d][0..] == s[..d];
  }

  /** Without delimiters the separator does not matter. */
  lemma {:induction false} NoDelimiterNoSeparator(s: Text, k: nat, a: nat, b: nat)
    requires k <= |s| && forall n :: k <= n < |s| ==> !DelimiterAt(s, n)
    ensures Decode(s[k..], a) == Decode(s[k..], b)
    decreases |s| - k
  {
    if k < |s| {
      assert !DelimiterAt(s, k);
      var (unit, width) := NextUnit(s, k, a);
      assert NextUnit(s, k, b) == (unit, width);
      DecodeOne(s, k, a);
      DecodeOne(s, k, b);
      NoDelimiterNoSeparator(s, k + width, a, b);
    }
  }

  lemma DelimiterBehind(s: Text, d: nat, n: nat)
    requires d < |s| && n < |s| - d - 1
    ensures DelimiterAt(s[d + 1..], n) <==> DelimiterAt(s, d + 1 + n)
  {
    EscapeShifts(s, d + 1 + n);
    EscapeShifts(s[d + 1..], n);
    assert s[d + 1..][n..] == s[d + 1 + n..];
  }

  /** Read from left to right, the body of any symbol that is split is the class, a dot, and the method. */
  lemma SplitDecodesWhole(symbol: Text)
    requires Demangle(symbol).Some?
    ensures var (className, methodName) := Demangle(symbol).value;
            PREFIX <= symbol && Decode(Body(symbol), DOT) == className + [DOT] + methodName
  {
    var body := Body(symbol);
    var d := LastDelimiter(body, |body|).value;
    assert body[d] == UNDERSCORE && d > 0 ==> symbol[|PREFIX|..][d - 1] == body[d - 1];
    DecodeSplits(body, d, DOT);
    var right := body[d + 1..];
    forall n | 0 <= n < |right| ensures !DelimiterAt(right, n) {
      DelimiterBehind(body, d, n);
    }
    NoDelimiterNoSeparator(right, 0, DOT, UNDERSCORE);
    assert right[0..] == right;
  }

  lemma DecodeIsNotEmpty(s: Text, separator: nat)
    requires s != []
    ensures Decode(s, separator) != []
  {
  }

  /**
   A symbol is split exactly when its body has a delimiter that is neither its first nor its last character,
   and does not end in one. So the test for empty names never applies.
   */
  lemma SplitsExactly(symbol: Text)
    ensures Demangle(symbol).Some? <==>
            PREFIX <= symbol && (exists d :: 0 < d && DelimiterAt(Body(symbol), d)) && !EndsInDelimiter(Body(symbol))
  {
    if PREFIX <= symbol {
      var body := Body(symbol);
      if LastDelimiter(body, |body|).Some? {
        var d := LastDelimiter(body, |body|).value;
        if 0 < d < |body| - 1 {
          DecodeIsNotEmpty(body[..d], DOT);
          DecodeIsNotEmpty(body[d + 1..], UNDERSCORE);
        }
      }
    }
  }

  predicate EndsInDelimiter(body: Text) {
    body != [] && DelimiterAt(body, |body| - 1)
  }

  // ----- in characters -----

  function Units(s: string): (r: Text)
    ensures |r| == |s| && forall i :: 0 <= i < |s| ==> r[i] == s[i] as int
  {
    seq(|s|, i requires 0 <= i < |s| => s[i] as int)
  }

  predicate Word(s: string) {
    forall i :: 0 <= i < |s| ==> '0' <= s[i] <= '9' || 'A' <= s[i] <= 'Z' || 'a' <= s[i] <= 'z'
  }

  lemma {:induction false} WordIsWritten(name: Name, ts: Tokens)
    requires |ts| == |name| && forall i :: 0 <= i < |ts| ==> IsPlain(name[i]) && ts[i] == Plain(name[i])
    ensures Encode(ts) == name
    decreases |ts|
  {
    if ts != [] {
      WordIsWritten(name[1..], ts[1..]);
    }
  }

  ghost predicate AllPlain(name: Text) {
    forall i :: 0 <= i < |name| ==> IsPlain(name[i])
  }

  lemma PlainIsWritten(name: Name)
    requires AllPlain(name)
    ensures Encode(MethodTokens(name)) == name && Encode(ClassTokens(name)) == name
  {
    WordIsWritten(name, MethodTokens(name));
    WordIsWritten(name, ClassTokens(name));
  }

  lemma DottedTokens(p: Name, n: Name, dotted: Name)
    requires dotted == p + [46] + n
    ensures ClassTokens(dotted) == ClassTokens(p) + [Separator] + ClassTokens(n)
  {
  }

  lemma DottedText(p: Name, n: Name, m: Name, dotted: Name)
    requires AllPlain(p) && AllPlain(n) && AllPlain(m) && dotted == p + [46] + n
    ensures Encode(NameTokens(dotted, m)) == p + [95] + n + [95] + m
  {
    DottedTokens(p, n, dotted);
    PlainIsWritten(p);
    PlainIsWritten(n);
    PlainIsWritten(m);
    JoinedText(ClassTokens(p), ClassTokens(n));
    JoinedText(ClassTokens(dotted), MethodTokens(m));
  }

  /** The dots of a class name are written as underscores, and the method follows after another one. */
  lemma DotsAreWritten(package: string, name: string, method_: string)
    requires Word(package) && Word(name) && Word(method_)
    ensures Mangle(Units(package + "." + name), Units(method_), None)
         == Units("Java_" + package + "_" + name + "_" + method_)
  {
    var dotted, symbol := Units(package + "." + name), Units("Java_" + package + "_" + name + "_" + method_);
    var p, n, m := Units(package), Units(name), Units(method_);
    assert dotted == p + [46] + n;
    assert symbol == PREFIX + (p + [95] + n + [95] + m);
    DottedText(p, n, m, dotted);
    assert Tail(None) == [];
  }

  /** The three short escapes, and hexadecimal digits of either case. */
  lemma EscapesAreWritten(k: nat)
    requires k < 6
    ensures Escape('_' as int) == Units("_1") && Escape(';' as int) == Units("_2") && Escape('[' as int) == Units("_3")
    ensures HexValue('a' as int + k) == 10 + k == HexValue('A' as int + k)
  {
  }
}
