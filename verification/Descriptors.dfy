/**
 Method descriptors (section 4.3.3 of the Java Virtual Machine Specification) as the call graph
 reads them: how many parameters, how many register words each one takes, and which argument word
 of an invocation is which p-register of the callee.
 */
module Descriptors {
  import opened Wrappers
  import opened Collections

  datatype FieldType = Primitive(letter: char) | ClassType(name: string) | ArrayType(element: FieldType)

  datatype Register = Register(bank: char, index: nat)

  // ----- the grammar, printed -----

  predicate IsPrimitive(c: char) {
    c in "ZBCSIFJD"
  }

  ghost predicate IsFieldType(t: FieldType) {
    match t
    case Primitive(c) => IsPrimitive(c)
    case ClassType(name) => ';' !in name
    case ArrayType(element) => IsFieldType(element)
  }

  function PrintType(t: FieldType): string {
    match t
    case Primitive(c) => [c]
    case ClassType(name) => "L" + name + ";"
    case ArrayType(element) => "[" + PrintType(element)
  }

  function PrintTypes(ts: seq<FieldType>): string {
    if ts == [] then "" else PrintType(ts[0]) + PrintTypes(ts[1..])
  }

  /** Only long and double take two words; an array of them is a reference. */
  function Width(t: FieldType): nat {
    if t.Primitive? && t.letter in "JD" then 2 else 1
  }

  function Widths(ts: seq<FieldType>): seq<nat> {
    seq(|ts|, i requires 0 <= i < |ts| => Width(ts[i]))
  }

  // ----- reading -----

  /** The first position of c at or after from, or |s|. */
  function Find(s: string, c: char, from: nat): (r: nat)
    requires from <= |s|
    ensures from <= r <= |s|
    ensures forall k :: from <= k < r ==> s[k] != c
    ensures r < |s| ==> s[r] == c
    decreases |s| - from
  {
    if from == |s| || s[from] == c then from else Find(s, c, from + 1)
  }

  /** One type starting at index: its width and the position after it. */
  function ReadType(body: string, index: nat, afterBracket: bool): (r: Option<(nat, nat)>)
    requires index < |body|
    ensures r.Some? ==> index < r.value.1 <= |body| && (r.value.0 == 1 || r.value.0 == 2)
    decreases |body| - index
  {
    if body[index] == '[' then
      if index + 1 < |body| then ReadType(body, index + 1, true) else None
    else if body[index] == 'L' then
      var end := Find(body, ';', index);
      if end == |body| then None else Some((1, end + 1))
    else if IsPrimitive(body[index]) then
      Some((if body[index] in "JD" && !afterBracket then 2 else 1, index + 1))
    else None
  }

  predicate Positive(widths: seq<nat>) {
    forall i :: 0 <= i < |widths| ==> widths[i] > 0
  }

  function ReadTypes(body: string, index: nat): (r: Option<seq<nat>>)
    requires index <= |body|
    ensures r.Some? ==> Positive(r.value)
    decreases |body| - index
  {
    if index == |body| then Some([]) else
    match ReadType(body, index, false)
    case None => None
    case Some((width, next)) =>
      match ReadTypes(body, next)
      case None => None
      case Some(rest) => Some([width] + rest)
  }

  function ParameterWidths(signature: string): Option<seq<nat>> {
    if signature == "" || signature[0] != '(' || ')' !in signature then None
    else ReadTypes(Body(signature), 0)
  }

  /** What stands between the opening parenthesis and the first closing one. */
  function Body(signature: string): string
    requires signature != ""
  {
    signature[1..Find(signature, ')', 1)]
  }

  /** The descriptor loop of the source computes exactly the widths of the specification. */
  method ParameterDescriptors(signature: string) returns (r: Option<seq<nat>>)
    ensures r == ParameterWidths(signature)
  {
    if signature == "" || signature[0] != '(' || ')' !in signature {
      return None;
    }
    var body := Body(signature);
    var widths: seq<nat> := [];
    var index := 0;
    PrependNothing(ReadTypes(body, 0));
    while index < |body|
      invariant 0 <= index <= |body|
      invariant index > 0 ==> body[index - 1] != '['
      invariant ReadTypes(body, 0) == Prepend(widths, ReadTypes(body, index))
    {
      ghost var start := index;
      while index < |body| && body[index] == '['
        invariant start <= index <= |body|
        invariant forall k :: start <= k < index ==> body[k] == '['
        invariant index < |body| ==> ReadType(body, start, false) == ReadType(body, index, index > start)
        invariant index == |body| ==> ReadType(body, start, false) == None
      {
        index := index + 1;
      }
      if index >= |body| {
        return None;
      }
      var width: nat;
      if body[index] == 'L' {
        var end := Find(body, ';', index);
        if end == |body| {
          return None;
        }
        index := end + 1;
        width := 1;
      } else if IsPrimitive(body[index]) {
        width := if body[index] in "JD" && (index == 0 || body[index - 1] != '[') then 2 else 1;
        index := index + 1;
      } else {
        return None;
      }
      OneTypeRead(body, start, widths, width, index);
      widths := widths + [width];
    }
    PrependDone(widths);
    return Some(widths);
  }

  ghost function Prepend(widths: seq<nat>, rest: Option<seq<nat>>): Option<seq<nat>> {
    match rest
    case None => None
    case Some(tail) => Some(widths + tail)
  }

  lemma PrependNothing(rest: Option<seq<nat>>)
    ensures Prepend([], rest) == rest
  {
    assert rest.Some? ==> [] + rest.value == rest.value;
  }

  lemma PrependDone(widths: seq<nat>)
    ensures Prepend(widths, Some([])) == Some(widths)
  {
    assert widths + [] == widths;
  }

  lemma OneTypeRead(body: string, start: nat, widths: seq<nat>, width: nat, next: nat)
    requires start < |body| && ReadType(body, start, false) == Some((width, next))
    ensures Prepend(widths, ReadTypes(body, start)) == Prepend(widths + [width], ReadTypes(body, next))
  {
    match ReadTypes(body, next)
    case None =>
    case Some(rest) => assert widths + [width] + rest == widths + ([width] + rest);
  }

  // ----- reading undoes printing, and accepts nothing else -----

  lemma FindSkips(s: string, c: char, from: nat, at: nat)
    requires from <= at < |s| && s[at] == c && forall k :: from <= k < at ==> s[k] != c
    ensures Find(s, c, from) == at
  {
  }

  ghost predicate StandsAt(body: string, index: nat, text: string) {
    index + |text| <= |body| && body[index..index + |text|] == text
  }

  lemma {:induction false} ReadsOneType(body: string, index: nat, t: FieldType, afterBracket: bool)
    requires IsFieldType(t) && StandsAt(body, index, PrintType(t))
    ensures |PrintType(t)| > 0
    ensures ReadType(body, index, afterBracket) == Some((if afterBracket then 1 else Width(t), index + |PrintType(t)|))
    decreases t
  {
    var text := PrintType(t);
    assert body[index] == text[0];
    match t
    case Primitive(c) =>
    case ClassType(name) =>
      var end := index + |text| - 1;
      forall k | index <= k < end ensures body[k] != ';' {
        assert body[k] == body[index..index + |text|][k - index] == text[k - index];
        assert k > index ==> text[k - index] == name[k - index - 1];
      }
      assert body[end] == text[|text| - 1];
      FindSkips(body, ';', index, end);
    case ArrayType(element) =>
      assert text[1..] == PrintType(element);
      assert body[index + 1..index + |text|] == text[1..];
      ReadsOneType(body, index + 1, element, true);
  }

  lemma PrintedFirst(body: string, index: nat, head: string, rest: string)
    requires index <= |body| && body[index..] == head + rest
    ensures StandsAt(body, index, head) && index + |head| <= |body| && body[index + |head|..] == rest
  {
    assert body[index..][..|head|] == head && body[index..][|head|..] == rest;
  }

  lemma ReadsFirst(body: string, index: nat, t: FieldType, more: string) returns (next: nat)
    requires IsFieldType(t) && index <= |body| && body[index..] == PrintType(t) + more
    ensures index < next <= |body| && body[next..] == more && ReadType(body, index, false) == Some((Width(t), next))
  {
    PrintedFirst(body, index, PrintType(t), more);
    ReadsOneType(body, index, t, false);
    next := index + |PrintType(t)|;
  }

  lemma WidthsFirst(ts: seq<FieldType>, rest: seq<FieldType>)
    requires ts != [] && rest == ts[1..]
    ensures Widths(ts) == [Width(ts[0])] + Widths(rest)
  {
    forall i | 0 <= i < |ts| ensures Widths(ts)[i] == ([Width(ts[0])] + Widths(rest))[i] {
      assert i > 0 ==> rest[i - 1] == ts[i];
    }
  }

  lemma ReadFirst(body: string, index: nat, width: nat, next: nat, rest: seq<nat>)
    requires index < |body| && ReadType(body, index, false) == Some((width, next)) && next <= |body|
    requires ReadTypes(body, next) == Some(rest)
    ensures ReadTypes(body, index) == Some([width] + rest)
  {
  }

  lemma {:induction false} ReadsPrinted(body: string, index: nat, ts: seq<FieldType>)
    requires forall t :: t in ts ==> IsFieldType(t)
    requires index <= |body| && body[index..] == PrintTypes(ts)
    ensures ReadTypes(body, index) == Some(Widths(ts))
    decreases |ts|
  {
    if ts != [] {
      var rest := ts[1..];
      var next := ReadsFirst(body, index, ts[0], PrintTypes(rest));
      ReadsPrinted(body, next, rest);
      ReadFirst(body, index, Width(ts[0]), next, Widths(rest));
      WidthsFirst(ts, rest);
    } else {
      assert body[index..] == "" && Widths(ts) == [];
    }
  }

  /** A type whose print is cut off before a closing parenthesis is not read. */
  lemma {:induction false} CutTypeIsRejected(body: string, index: nat, t: FieldType, afterBracket: bool)
    requires IsFieldType(t) && index <= |body| && |body| - index < |PrintType(t)|
    requires body[index..] == PrintType(t)[..|body| - index] && PrintType(t)[|body| - index] == ')'
    ensures index < |body| && ReadType(body, index, afterBracket) == None
    decreases t
  {
    var text := PrintType(t);
    match t
    case Primitive(c) =>
    case ClassType(name) =>
      assert body[index] == body[index..][0] == text[0];
      forall k | index <= k < |body| ensures body[k] != ';' {
        assert body[k] == body[index..][k - index] == text[k - index];
        assert k > index ==> text[k - index] == name[k - index - 1];
      }
    case ArrayType(element) =>
      assert body[index] == body[index..][0] == text[0];
      assert text[1..] == PrintType(element);
      assert body[index + 1..] == body[index..][1..] == PrintType(element)[..|body| - index - 1];
      CutTypeIsRejected(body, index + 1, element, true);
  }

  /** A class name may hold a closing parenthesis, and the list is cut off there. */
  lemma {:induction false} CutListIsRejected(body: string, index: nat, ts: seq<FieldType>, tail: string)
    requires forall t :: t in ts ==> IsFieldType(t)
    requires index <= |body| && body[index..] + tail == PrintTypes(ts) && tail != "" && tail[0] == ')'
    ensures ReadTypes(body, index) == None
    decreases |ts|
  {
    var t, rest, n := ts[0], ts[1..], |body| - index;
    var text := PrintType(t);
    Overlap(body[index..], tail, text, PrintTypes(rest));
    if |text| <= n {
      assert body[index..index + |text|] == body[index..][..|text|];
      ReadsOneType(body, index, t, false);
      assert body[index + |text|..] == body[index..][|text|..];
      CutListIsRejected(body, index + |text|, rest, tail);
    } else {
      CutTypeIsRejected(body, index, t, false);
    }
  }

  lemma Overlap(a: string, tail: string, text: string, rest: string)
    requires a + tail == text + rest && tail != ""
    ensures if |text| <= |a| then a[..|text|] == text && a[|text|..] + tail == rest
            else a == text[..|a|] && tail[0] == text[|a|]
  {
    if |text| <= |a| {
      assert a[..|text|] == (a + tail)[..|text|] == text;
      assert a[|text|..] + tail == (a + tail)[|text|..] == rest;
    } else {
      assert a == (a + tail)[..|a|] == text[..|a|];
      assert tail[0] == (a + tail)[|a|] == text[|a|];
    }
  }

  lemma BodyIsCut(text: string, result: string, at: nat)
    requires at <= |text| && (at < |text| ==> text[at] == ')') && forall k :: 0 <= k < at ==> text[k] != ')'
    ensures var s := "(" + text + ")" + result;
            ')' in s && s[0] == '(' && Body(s) == text[..at]
  {
    var s := "(" + text + ")" + result;
    SignatureChars(s, text, result);
    forall k | 1 <= k < 1 + at ensures s[k] != ')' {
      assert s[k] == text[k - 1];
    }
    assert s[1 + at] == ')';
    FindSkips(s, ')', 1, 1 + at);
    assert s[1..1 + at] == text[..at];
  }

  lemma SignatureChars(s: string, text: string, result: string)
    requires s == "(" + text + ")" + result
    ensures |s| > |text| + 1 && s[0] == '(' && s[1 + |text|] == ')'
    ensures forall k :: 1 <= k <= |text| ==> s[k] == text[k - 1]
  {
  }

  /**
   A printed parameter list is read back as its widths, unless a class name in it holds a closing parenthesis: then it
   is rejected.
   */
  lemma DescriptorRoundTrip(ts: seq<FieldType>, result: string)
    requires forall t :: t in ts ==> IsFieldType(t)
    ensures ParameterWidths("(" + PrintTypes(ts) + ")" + result) ==
            if ')' in PrintTypes(ts) then None else Some(Widths(ts))
  {
    var text := PrintTypes(ts);
    var at := Find(text, ')', 0);
    assert at < |text| <==> ')' in text;
    BodyIsCut(text, result, at);
    if ')' in text {
      assert text[..at][0..] + text[at..] == text;
      CutListIsRejected(text[..at], 0, ts, text[at..]);
    } else {
      assert text[..at] == text;
      ReadsPrinted(text, 0, ts);
    }
  }

  /** What is read as one type is the print of one. */
  lemma {:induction false} ReadTypeIsPrint(body: string, index: nat, afterBracket: bool) returns (t: FieldType)
    requires index < |body| && ReadType(body, index, afterBracket).Some?
    ensures IsFieldType(t) && PrintType(t) == body[index..ReadType(body, index, afterBracket).value.1]
    decreases |body| - index
  {
    if body[index] == '[' {
      var element := ReadTypeIsPrint(body, index + 1, true);
      t := ArrayType(element);
    } else if body[index] == 'L' {
      t := ClassType(body[index + 1..Find(body, ';', index)]);
    } else {
      t := Primitive(body[index]);
    }
  }

  lemma {:induction false} ReadTypesIsPrint(body: string, index: nat) returns (ts: seq<FieldType>)
    requires index <= |body| && ReadTypes(body, index).Some?
    ensures (forall t :: t in ts ==> IsFieldType(t)) && PrintTypes(ts) == body[index..]
    decreases |body| - index
  {
    if index == |body| {
      ts := [];
    } else {
      var t := ReadTypeIsPrint(body, index, false);
      var next := ReadType(body, index, false).value.1;
      var rest := ReadTypesIsPrint(body, next);
      ts := [t] + rest;
      assert body[index..] == body[index..next] + body[next..];
    }
  }

  /** A descriptor body is accepted exactly when it is the print of some parameter list. */
  lemma AcceptsExactlyPrints(body: string)
    ensures ReadTypes(body, 0).Some? <==>
            exists ts :: (forall t :: t in ts ==> IsFieldType(t)) && PrintTypes(ts) == body
  {
    if ReadTypes(body, 0).Some? {
      var ts := ReadTypesIsPrint(body, 0);
      assert PrintTypes(ts) == body;
    }
    forall ts | (forall t :: t in ts ==> IsFieldType(t)) && PrintTypes(ts) == body
      ensures ReadTypes(body, 0).Some?
    {
      ReadsPrinted(body, 0, ts);
    }
  }

  // ----- argument words -----

  function Sum(widths: seq<nat>): nat {
    if widths == [] then 0 else widths[0] + Sum(widths[1..])
  }

  /** Pairs the words of the callee with those of the caller, one parameter after the other. */
  function MapWords(widths: seq<nat>, at: nat, actuals: seq<Register>): (r: seq<(Register, Register)>)
    requires at + Sum(widths) <= |actuals| && Positive(widths)
    ensures |r| == |widths|
  {
    if widths == [] then [] else [(Register('p', at), actuals[at])] + MapWords(widths[1..], at + widths[0], actuals)
  }

  /** The words an instance method's receiver takes in front of the parameters. */
  function ReceiverWords(isStatic: bool): nat {
    if isStatic then 0 else 1
  }

  function ArgumentRegisters(signature: string, isStatic: bool, actuals: seq<Register>): seq<(Register, Register)> {
    match ParameterWidths(signature)
    case None => []
    case Some(widths) =>
      if ReceiverWords(isStatic) + Sum(widths) != |actuals| then []
          else MapWords(widths, ReceiverWords(isStatic), actuals)
  }

  /**
   The k-th parameter starts at the sum of the widths before it, in the callee's p-registers and in
   the caller's words alike.
   */
  lemma {:induction false} KthParameter(widths: seq<nat>, at: nat, actuals: seq<Register>, k: nat)
    requires at + Sum(widths) <= |actuals| && Positive(widths)
    requires k < |widths|
    ensures at + Sum(widths[..k]) < |actuals|
    ensures MapWords(widths, at, actuals)[k] == (Register('p', at + Sum(widths[..k])), actuals[at + Sum(widths[..k])])
    decreases k
  {
    if k > 0 {
      KthParameter(widths[1..], at + widths[0], actuals, k - 1);
      assert widths[..k][1..] == widths[1..][..k - 1];
    }
  }

  /** What the loop has mapped after k parameters, if the whole list is going to fit. */
  ghost function Agree(widths: seq<nat>, start: nat, actuals: seq<Register>):
    (nat, nat, seq<(Register, Register)>) -> bool
    requires Positive(widths)
  {
    (k: nat, at: nat, mapped: seq<(Register, Register)>) =>
      && k <= |widths| && start + Sum(widths) == at + Sum(widths[k..])
      && (start + Sum(widths) <= |actuals| ==>
            MapWords(widths, start, actuals) == mapped + MapWords(widths[k..], at, actuals))
  }

  lemma DoesNotFit(widths: seq<nat>, start: nat, k: nat, at: nat, actuals: seq<Register>,
                   mapped: seq<(Register, Register)>)
    requires k < |widths| && Positive(widths) && Agree(widths, start, actuals)(k, at, mapped)
    requires at + widths[k] > |actuals|
    ensures start + Sum(widths) > |actuals|
  {
    Agreed(widths, start, k, widths[k..], at, actuals, mapped);
    SumFirst(widths[k..], widths[k + 1..]);
  }

  lemma OneMoreWord(widths: seq<nat>, start: nat, k: nat, at: nat, actuals: seq<Register>,
                    mapped: seq<(Register, Register)>, at': nat, mapped': seq<(Register, Register)>)
    requires k < |widths| && Positive(widths) && Agree(widths, start, actuals)(k, at, mapped)
    requires at' == at + widths[k] <= |actuals| && mapped' == mapped + [(Register('p', at), actuals[at])]
    ensures Agree(widths, start, actuals)(k + 1, at', mapped')
  {
    var rest, next := widths[k..], widths[k + 1..];
    Agreed(widths, start, k, rest, at, actuals, mapped);
    SumFirst(rest, next);
    if start + Sum(widths) <= |actuals| {
      MapMore(rest, next, at, actuals, mapped);
    }
    StillAgree(widths, start, k + 1, next, at', actuals, mapped');
  }

  lemma Agreed(widths: seq<nat>, start: nat, k: nat, rest: seq<nat>, at: nat, actuals: seq<Register>,
               mapped: seq<(Register, Register)>)
    requires k <= |widths| && rest == widths[k..] && Positive(widths) && Agree(widths, start, actuals)(k, at, mapped)
    ensures start + Sum(widths) == at + Sum(rest)
    ensures start + Sum(widths) <= |actuals| ==>
              MapWords(widths, start, actuals) == mapped + MapWords(rest, at, actuals)
  {
  }

  lemma StillAgree(widths: seq<nat>, start: nat, k: nat, rest: seq<nat>, at: nat, actuals: seq<Register>,
                   mapped: seq<(Register, Register)>)
    requires k <= |widths| && rest == widths[k..] && Positive(widths)
    requires start + Sum(widths) == at + Sum(rest)
    requires start + Sum(widths) <= |actuals| ==>
               MapWords(widths, start, actuals) == mapped + MapWords(rest, at, actuals)
    ensures Agree(widths, start, actuals)(k, at, mapped)
  {
  }

  lemma MapMore(widths: seq<nat>, next: seq<nat>, at: nat, actuals: seq<Register>, mapped: seq<(Register, Register)>)
    requires widths != [] && next == widths[1..] && at + Sum(widths) <= |actuals| && Positive(widths)
    ensures at < |actuals| && at + widths[0] + Sum(next) <= |actuals| && Positive(next)
    ensures mapped + MapWords(widths, at, actuals)
         == mapped + [(Register('p', at), actuals[at])] + MapWords(next, at + widths[0], actuals)
  {
    MapFirst(widths, next, at, actuals);
    Regroup(mapped, [(Register('p', at), actuals[at])], MapWords(next, at + widths[0], actuals));
  }

  lemma SumFirst(widths: seq<nat>, next: seq<nat>)
    requires widths != [] && next == widths[1..]
    ensures Sum(widths) == widths[0] + Sum(next)
  {
  }

  lemma MapFirst(widths: seq<nat>, next: seq<nat>, at: nat, actuals: seq<Register>)
    requires widths != [] && next == widths[1..] && at + Sum(widths) <= |actuals| && Positive(widths)
    ensures MapWords(widths, at, actuals) == [(Register('p', at), actuals[at])]
            + MapWords(next, at + widths[0], actuals)
  {
  }

  /** The mapping loop of the source: it gives up as soon as a parameter runs past the words. */
  method ParameterArgumentRegisters(signature: string, isStatic: bool, actuals: seq<Register>)
    returns (r: seq<(Register, Register)>)
    ensures r == ArgumentRegisters(signature, isStatic, actuals)
  {
    var descriptors := ParameterDescriptors(signature);
    if descriptors.None? {
      return [];
    }
    var widths := descriptors.value;
    var at: nat := ReceiverWords(isStatic);
    if !isStatic && actuals == [] {
      return [];
    }
    var mapped := [];
    var k := 0;
    StillAgree(widths, at, 0, widths, at, actuals, mapped);
    while k < |widths|
      invariant 0 <= k <= |widths| && at <= |actuals|
      invariant Agree(widths, ReceiverWords(isStatic), actuals)(k, at, mapped)
    {
      if at + widths[k] > |actuals| {
        DoesNotFit(widths, ReceiverWords(isStatic), k, at, actuals, mapped);
        return [];
      }
      ghost var was, earlier := at, mapped;
      mapped := mapped + [(Register('p', at), actuals[at])];
      at := at + widths[k];
      OneMoreWord(widths, ReceiverWords(isStatic), k, was, actuals, earlier, at, mapped);
      k := k + 1;
    }
    Agreed(widths, ReceiverWords(isStatic), k, [], at, actuals, mapped);
    return if at != |actuals| then [] else mapped;
  }

  /** The word at which the k-th parameter of a printed signature starts. */
  function Offset(ts: seq<FieldType>, isStatic: bool, k: nat): nat
    requires k <= |ts|
  {
    (if isStatic then 0 else 1) + Sum(Widths(ts[..k]))
  }

  /**
   A call whose words are those of a printed parameter list: every parameter is mapped, each at its
   own offset. With any other number of words, or with a class name that holds a closing parenthesis, nothing is.
   */
  lemma ArgumentsOfPrintedSignature(ts: seq<FieldType>, result: string, isStatic: bool, actuals: seq<Register>)
    requires forall t :: t in ts ==> IsFieldType(t)
    ensures var r := ArgumentRegisters("(" + PrintTypes(ts) + ")" + result, isStatic, actuals);
            if ')' in PrintTypes(ts) || Offset(ts, isStatic, |ts|) != |actuals| then r == []
            else |r| == |ts| && forall k: nat :: k < |ts| ==>
              Offset(ts, isStatic, k) < |actuals| &&
              r[k] == (Register('p', Offset(ts, isStatic, k)), actuals[Offset(ts, isStatic, k)])
  {
    DescriptorRoundTrip(ts, result);
    assert ts[..|ts|] == ts;
    if ')' !in PrintTypes(ts) && Offset(ts, isStatic, |ts|) == |actuals| {
      forall k: nat | k < |ts|
        ensures Offset(ts, isStatic, k) < |actuals|
        ensures MapWords(Widths(ts), ReceiverWords(isStatic), actuals)[k] ==
                (Register('p', Offset(ts, isStatic, k)), actuals[Offset(ts, isStatic, k)])
      {
        KthParameter(Widths(ts), ReceiverWords(isStatic), actuals, k);
        assert Widths(ts)[..k] == Widths(ts[..k]);
      }
    }
  }
}
