/**
 What the load commands of a 64-bit Mach-O file declare: sections, imported libraries and the symbol table.
 */
module MachOParser {
  import opened Wrappers
  import opened Collections
  import opened LittleEndian
  import opened MachO
  import opened SwiftMetadata
  import opened SwiftFields
  import opened SwiftInventory

  const MAX_BINARY_BYTES: nat := 15728640
  const MAGIC_LITTLE: Bytes := [0xCF, 0xFA, 0xED, 0xFE]
  const LC_SEGMENT_64: nat := 0x19
  const LC_SYMTAB: nat := 0x02
  const DYLIB_COMMANDS: set<nat> := {0x0C, 0x0D, 0x8000_0018, 0x8000_001F, 0x20, 0x8000_0023}
  const MAX_SYMBOLS: nat := 100000
  const MAX_STRINGS: nat := 8388608
  const MAX_NAMES: nat := 2000

  // ----- one command -----

  function SectionAt(e: Endian, data: Bytes, segment: string, at: nat, ascii: Bytes -> string): Section
    requires at + 80 <= |data|
  {
    var owner := ascii(UpToNul(data[at + 16..at + 32]));
    Section(if owner != "" then owner else segment, ascii(UpToNul(data[at..at + 16])),
            Num(e, data, at + 40, 8), U32At(e, data, at + 48))
  }

  predicate Inside(c: Command, data: Bytes) {
    c.size >= 8 && c.start + c.size <= |data|
  }

  function SectionCount(e: Endian, data: Bytes, c: Command): nat
    requires Inside(c, data) && c.size >= 72
  {
    U32At(e, data, c.start + 64)
  }

  predicate SegmentFits(e: Endian, data: Bytes, c: Command)
    requires Inside(c, data)
  {
    c.size >= 72 && SectionCount(e, data, c) <= 4096 && 72 + SectionCount(e, data, c) * 80 <= c.size
  }

  /** The section records of a segment command. */
  function SectionsOf(e: Endian, data: Bytes, c: Command, ascii: Bytes -> string): seq<Section>
    requires Inside(c, data)
  {
    if c.kind != LC_SEGMENT_64 || !SegmentFits(e, data, c) then []
    else
      var segment := ascii(UpToNul(data[c.start + 8..c.start + 24]));
      seq(SectionCount(e, data, c), i requires 0 <= i < SectionCount(e, data, c) =>
        SectionAt(e, data, segment, c.start + 72 + 80 * i, ascii))
  }

  /** The name of an imported library, if its offset and terminator are inside the command. */
  function DylibOf(e: Endian, data: Bytes, c: Command, utf8: Bytes -> string): Option<string>
    requires Inside(c, data)
  {
    if c.kind !in DYLIB_COMMANDS || c.size < 24 then None
    else
      var offset := U32At(e, data, c.start + 8);
      if offset < 24 || offset >= c.size then None
      else
        var from := c.start + offset;
        var command := data[..c.start + c.size];
        if NulFrom(command, from) == |command| then None
        else
          var name := utf8(data[from..NulFrom(command, from)]);
          if name == "" then None else Some(name)
  }

  function SymtabOf(e: Endian, data: Bytes, c: Command): Option<Symtab>
    requires Inside(c, data)
  {
    if c.kind != LC_SYMTAB || c.size < 24 then None
    else Some(Symtab(U32At(e, data, c.start + 8), U32At(e, data, c.start + 12), U32At(e, data, c.start + 16),
                     U32At(e, data, c.start + 20)))
  }

  /** A command too short for what it claims to be. */
  predicate Malformed(e: Endian, data: Bytes, c: Command)
    requires Inside(c, data)
  {
    (c.kind == LC_SEGMENT_64 && !SegmentFits(e, data, c)) || (c.kind == LC_SYMTAB && c.size < 24)
  }

  function Complaint(e: Endian, data: Bytes, c: Command): seq<string>
    requires Inside(c, data)
  {
    if !Malformed(e, data, c) then []
    else if c.kind == LC_SYMTAB then ["Truncated LC_SYMTAB command"]
    else if c.size < 72 then ["Truncated LC_SEGMENT_64 command"]
    else ["LC_SEGMENT_64 section table exceeds command bounds"]
  }

  // ----- all commands -----

  /** What has been read off some commands, in order. */
  datatype Image = Image(sections: seq<Section>, dylibs: seq<string>, symtab: Option<Symtab>, errors: seq<string>)

  function Applied(e: Endian, data: Bytes, image: Image, c: Command, ascii: Bytes -> string,
                   utf8: Bytes -> string): Image
    requires Inside(c, data)
  {
    Image(image.sections + SectionsOf(e, data, c, ascii),
          With(image.dylibs, DylibOf(e, data, c, utf8)),
          if SymtabOf(e, data, c).Some? then SymtabOf(e, data, c) else image.symtab,
          image.errors + Complaint(e, data, c))
  }

  function Loaded(e: Endian, data: Bytes, image: Image, commands: seq<Command>, ascii: Bytes -> string,
                  utf8: Bytes -> string): Image
    requires forall c :: c in commands ==> Inside(c, data)
    decreases |commands|
  {
    if commands == [] then image
    else
      var n := |commands| - 1;
      Applied(e, data, Loaded(e, data, image, commands[..n], ascii, utf8), commands[n], ascii, utf8)
  }

  ghost predicate AnyMalformed(e: Endian, data: Bytes, commands: seq<Command>) {
    exists c :: c in commands && Inside(c, data) && Malformed(e, data, c)
  }

  lemma LoadedStep(e: Endian, data: Bytes, image: Image, commands: seq<Command>, c: Command, ascii: Bytes -> string,
                   utf8: Bytes -> string)
    requires (forall d :: d in commands ==> Inside(d, data)) && Inside(c, data)
    ensures Loaded(e, data, image, commands + [c], ascii, utf8) ==
            Applied(e, data, Loaded(e, data, image, commands, ascii, utf8), c, ascii, utf8)
  {
    assert (commands + [c])[..|commands|] == commands;
  }

  ghost predicate Keeps(e: Endian, data: Bytes, commands: seq<Command>, ascii: Bytes -> string, utf8: Bytes -> string,
                        P: (Image, nat) -> bool)
    requires forall c :: c in commands ==> Inside(c, data)
  {
    forall r, k: nat :: P(r, k) && k < |commands| ==> P(Applied(e, data, r, commands[k], ascii, utf8), k + 1)
  }

  /** What holds at the start and is kept by every command holds of everything loaded. */
  lemma {:induction false} LoadedKeeps(e: Endian, data: Bytes, image: Image, commands: seq<Command>,
                                       ascii: Bytes -> string, utf8: Bytes -> string, P: (Image, nat) -> bool, k: nat)
    requires (forall c :: c in commands ==> Inside(c, data)) && k <= |commands|
    requires P(image, 0) && Keeps(e, data, commands, ascii, utf8, P)
    ensures P(Loaded(e, data, image, commands[..k], ascii, utf8), k)
    decreases k
  {
    if k > 0 {
      LoadedKeeps(e, data, image, commands, ascii, utf8, P, k - 1);
      assert commands[..k] == commands[..k - 1] + [commands[k - 1]];
      LoadedStep(e, data, image, commands[..k - 1], commands[k - 1], ascii, utf8);
      KeepsOne(e, data, commands, ascii, utf8, P, Loaded(e, data, image, commands[..k - 1], ascii, utf8), k - 1);
    }
  }

  lemma KeepsOne(e: Endian, data: Bytes, commands: seq<Command>, ascii: Bytes -> string, utf8: Bytes -> string,
                 P: (Image, nat) -> bool, r: Image, k: nat)
    requires forall c :: c in commands ==> Inside(c, data)
    requires Keeps(e, data, commands, ascii, utf8, P) && P(r, k) && k < |commands|
    ensures P(Applied(e, data, r, commands[k], ascii, utf8), k + 1)
  {
  }

  lemma LoadedKept(e: Endian, data: Bytes, image: Image, commands: seq<Command>, ascii: Bytes -> string,
                   utf8: Bytes -> string, P: (Image, nat) -> bool)
    requires forall c :: c in commands ==> Inside(c, data)
    requires P(image, 0) && Keeps(e, data, commands, ascii, utf8, P)
    ensures P(Loaded(e, data, image, commands, ascii, utf8), |commands|)
  {
    LoadedKeeps(e, data, image, commands, ascii, utf8, P, |commands|);
    assert commands[..|commands|] == commands;
  }

  /** The sections that some commands declare, command by command. */
  function SectionsIn(e: Endian, data: Bytes, commands: seq<Command>, ascii: Bytes -> string): seq<Section>
    requires forall c :: c in commands ==> Inside(c, data)
  {
    if commands == [] then [] else SectionsOf(e, data, commands[0], ascii) + SectionsIn(e, data, commands[1..], ascii)
  }

  lemma {:induction false} SectionsInMore(e: Endian, data: Bytes, commands: seq<Command>, c: Command,
                                          ascii: Bytes -> string)
    requires forall d :: d in commands + [c] ==> Inside(d, data)
    ensures forall d :: d in commands ==> Inside(d, data)
    ensures SectionsIn(e, data, commands + [c], ascii) == SectionsIn(e, data, commands, ascii)
            + SectionsOf(e, data, c, ascii)
  {
    var more := commands + [c];
    assert forall d :: d in commands ==> d in more;
    if commands == [] {
      assert more == [c] && more[1..] == [];
    } else {
      assert more[1..] == commands[1..] + [c];
      SectionsInMore(e, data, commands[1..], c, ascii);
      Regroup(SectionsOf(e, data, commands[0], ascii), SectionsIn(e, data, commands[1..], ascii),
              SectionsOf(e, data, c, ascii));
    }
  }

  ghost function SectionsSoFar(e: Endian, data: Bytes, image: Image, commands: seq<Command>,
                               ascii: Bytes -> string): (Image, nat) -> bool
    requires forall c :: c in commands ==> Inside(c, data)
  {
    (r: Image, k: nat) => k <= |commands| && r.sections == image.sections + SectionsIn(e, data, commands[..k], ascii)
  }

  /** The sections are those of the commands, in order and as often as declared. */
  lemma {:induction false} SectionsLoaded(e: Endian, data: Bytes, image: Image, commands: seq<Command>,
                                          ascii: Bytes -> string, utf8: Bytes -> string)
    requires forall c :: c in commands ==> Inside(c, data)
    ensures Loaded(e, data, image, commands, ascii, utf8).sections
            == image.sections + SectionsIn(e, data, commands, ascii)
  {
    var P := SectionsSoFar(e, data, image, commands, ascii);
    assert image.sections + [] == image.sections;
    forall r, k: nat | P(r, k) && k < |commands| ensures P(Applied(e, data, r, commands[k], ascii, utf8), k + 1) {
      assert commands[..k + 1] == commands[..k] + [commands[k]];
      SectionsInMore(e, data, commands[..k], commands[k], ascii);
      Regroup(image.sections, SectionsIn(e, data, commands[..k], ascii), SectionsOf(e, data, commands[k], ascii));
    }
    LoadedKept(e, data, image, commands, ascii, utf8, P);
    assert commands[..|commands|] == commands;
  }

  ghost function ComplaintsSoFar(e: Endian, data: Bytes, image: Image, commands: seq<Command>): (Image, nat) -> bool {
    (r: Image, k: nat) =>
      && k <= |commands| && |r.errors| >= |image.errors|
      && (|r.errors| == |image.errors| <==> !AnyMalformed(e, data, commands[..k]))
  }

  /** There is a complaint exactly if some command is malformed. */
  lemma {:induction false} ComplaintsLoaded(e: Endian, data: Bytes, image: Image, commands: seq<Command>,
                                            ascii: Bytes -> string, utf8: Bytes -> string)
    requires forall c :: c in commands ==> Inside(c, data)
    ensures var r := Loaded(e, data, image, commands, ascii, utf8);
            |r.errors| >= |image.errors| && (|r.errors| == |image.errors| <==> !AnyMalformed(e, data, commands))
  {
    var P := ComplaintsSoFar(e, data, image, commands);
    assert !AnyMalformed(e, data, commands[..0]);
    forall r, k: nat | P(r, k) && k < |commands| ensures P(Applied(e, data, r, commands[k], ascii, utf8), k + 1) {
      assert commands[..k + 1] == commands[..k] + [commands[k]];
      MalformedMore(e, data, commands[..k], commands[k]);
    }
    LoadedKept(e, data, image, commands, ascii, utf8, P);
    assert commands[..|commands|] == commands;
  }

  ghost predicate Names(e: Endian, data: Bytes, commands: seq<Command>, utf8: Bytes -> string, d: string) {
    exists c :: c in commands && Inside(c, data) && DylibOf(e, data, c, utf8) == Some(d)
  }

  lemma NamesMore(e: Endian, data: Bytes, commands: seq<Command>, c: Command, utf8: Bytes -> string, d: string)
    requires Inside(c, data)
    ensures Names(e, data, commands + [c], utf8, d) <==>
                Names(e, data, commands, utf8, d) || DylibOf(e, data, c, utf8) == Some(d)
  {
    assert forall b :: b in commands + [c] <==> b in commands || b == c;
  }

  ghost function DylibsSoFar(e: Endian, data: Bytes, image: Image, commands: seq<Command>,
                             utf8: Bytes -> string): (Image, nat) -> bool {
    (r: Image, k: nat) =>
      && k <= |commands| && NoRepeats(r.dylibs)
      && forall d :: d in r.dylibs <==> d in image.dylibs || Names(e, data, commands[..k], utf8, d)
  }

  /** Every named library is listed, once, and nothing else is. */
  lemma {:induction false} DylibsLoaded(e: Endian, data: Bytes, image: Image, commands: seq<Command>,
                                        ascii: Bytes -> string, utf8: Bytes -> string)
    requires (forall c :: c in commands ==> Inside(c, data)) && NoRepeats(image.dylibs)
    ensures var r := Loaded(e, data, image, commands, ascii, utf8);
            NoRepeats(r.dylibs) && forall d :: d in r.dylibs <==> d in image.dylibs || Names(e, data, commands, utf8, d)
  {
    var P := DylibsSoFar(e, data, image, commands, utf8);
    assert forall d :: !Names(e, data, commands[..0], utf8, d);
    forall r, k: nat | P(r, k) && k < |commands| ensures P(Applied(e, data, r, commands[k], ascii, utf8), k + 1) {
      assert commands[..k + 1] == commands[..k] + [commands[k]];
      WithHolds(r.dylibs, DylibOf(e, data, commands[k], utf8));
      forall d { NamesMore(e, data, commands[..k], commands[k], utf8, d); }
    }
    LoadedKept(e, data, image, commands, ascii, utf8, P);
    assert commands[..|commands|] == commands;
  }

  /** The last complete symbol-table command counts. */
  lemma {:induction false} LastSymtabCounts(e: Endian, data: Bytes, image: Image, commands: seq<Command>,
                                            ascii: Bytes -> string, utf8: Bytes -> string, i: nat)
    requires (forall c :: c in commands ==> Inside(c, data)) && i < |commands| && SymtabOf(e, data, commands[i]).Some?
    requires forall k :: i < k < |commands| ==> SymtabOf(e, data, commands[k]) == None
    ensures Loaded(e, data, image, commands, ascii, utf8).symtab == SymtabOf(e, data, commands[i])
  {
    var P := SymtabSoFar(e, data, commands, i);
    forall r, k: nat | P(r, k) && k < |commands| ensures P(Applied(e, data, r, commands[k], ascii, utf8), k + 1) {
      assert i < k ==> SymtabOf(e, data, commands[k]) == None;
    }
    LoadedKept(e, data, image, commands, ascii, utf8, P);
  }

  ghost function SymtabSoFar(e: Endian, data: Bytes, commands: seq<Command>, i: nat): (Image, nat) -> bool
    requires i < |commands| && Inside(commands[i], data)
  {
    (r: Image, k: nat) => k <= |commands| && (i < k ==> r.symtab == SymtabOf(e, data, commands[i]))
  }

  // ----- a written segment is read back -----

  /** A section record: the two names, the size and the offset; address and the rest are not looked at. */
  datatype RawSection = RawSection(name: Bytes, owner: Bytes, address: Bytes, size: nat, offset: nat, rest: Bytes) {
    ghost predicate Encodable() {
      |name| == 16 && |owner| == 16 && |address| == 8 && |rest| == 28 && size < U64 && offset < U32
    }

    function Encoded(e: Endian): Bytes { name + owner + address + (Enc(e, size, 8) + Enc(e, offset, 4) + rest) }

    function Read(segment: string, ascii: Bytes -> string): Section {
      Section(if ascii(UpToNul(owner)) != "" then ascii(UpToNul(owner)) else segment, ascii(UpToNul(name)), size,
              offset)
    }
  }

  ghost predicate AllRaw(sections: seq<RawSection>) {
    forall s {:trigger s.Encodable()} :: s in sections ==> s.Encodable()
  }

  function EncodeSections(e: Endian, sections: seq<RawSection>): Bytes {
    if sections == [] then [] else sections[0].Encoded(e) + EncodeSections(e, sections[1..])
  }

  lemma SectionIsRead(e: Endian, data: Bytes, at: nat, to: nat, s: RawSection, rest: Bytes, segment: string,
                      ascii: Bytes -> string)
    requires at <= to <= |data| && data[at..to] == s.Encoded(e) + rest && s.Encodable()
    ensures at + 80 <= to && data[at + 80..to] == rest && SectionAt(e, data, segment, at, ascii)
            == s.Read(segment, ascii)
  {
    var numbers := Enc(e, s.size, 8) + Enc(e, s.offset, 4) + s.rest;
    assert s.Encoded(e) + rest == s.name + s.owner + s.address + (numbers + rest);
    Apart(data, at, to, s.name, s.owner, s.address, numbers + rest);
    assert numbers + rest == Enc(e, s.size, 8) + Enc(e, s.offset, 4) + s.rest + rest;
    Apart(data, at + 40, to, Enc(e, s.size, 8), Enc(e, s.offset, 4), s.rest, rest);
    NumReadsBack64(e, data, at + 40, s.size);
    NumReadsBack(e, data, at + 48, s.offset);
  }

  lemma {:induction false} SectionReadAt(e: Endian, data: Bytes, at: nat, to: nat, sections: seq<RawSection>,
                                         segment: string, ascii: Bytes -> string, i: nat)
    requires at <= to <= |data| && data[at..to] == EncodeSections(e, sections) && AllRaw(sections) && i < |sections|
    ensures at + 80 * i + 80 <= to
    ensures SectionAt(e, data, segment, at + 80 * i, ascii) == sections[i].Read(segment, ascii)
    decreases |sections|
  {
    assert sections[0].Encodable();
    SectionIsRead(e, data, at, to, sections[0], EncodeSections(e, sections[1..]), segment, ascii);
    if i > 0 {
      SectionReadAt(e, data, at + 80, to, sections[1..], segment, ascii, i - 1);
      assert at + 80 * i == at + 80 + 80 * (i - 1);
    }
  }

  function SegmentBody(e: Endian, name: Bytes, middle: Bytes, flags: Bytes, sections: seq<RawSection>): Bytes {
    name + middle + Enc(e, |sections|, 4) + (flags + EncodeSections(e, sections))
  }

  lemma {:induction false} SectionsLength(e: Endian, sections: seq<RawSection>)
    requires AllRaw(sections)
    ensures |EncodeSections(e, sections)| == 80 * |sections|
  {
    if sections != [] {
      assert sections[0].Encodable();
      SectionsLength(e, sections[1..]);
    }
  }

  /** The sections of a written segment command are read back, in either byte order. */
  lemma SegmentReadsBack(e: Endian, data: Bytes, c: Command, name: Bytes, middle: Bytes, flags: Bytes,
                         sections: seq<RawSection>, ascii: Bytes -> string)
    requires Inside(c, data) && c.kind == 0x19
    requires data[c.start + 8..c.start + c.size] == SegmentBody(e, name, middle, flags, sections)
    requires |name| == 16 && |middle| == 40 && |flags| == 4 && |sections| <= 4096 && AllRaw(sections)
    ensures SegmentFits(e, data, c)
    ensures var found := SectionsOf(e, data, c, ascii);
            && |found| == |sections|
            && forall i :: 0 <= i < |sections| ==> found[i] == sections[i].Read(ascii(UpToNul(name)), ascii)
  {
    SegmentLayout(e, data, c, name, middle, flags, sections);
    var found := SectionsOf(e, data, c, ascii);
    forall i | 0 <= i < |sections| ensures found[i] == sections[i].Read(ascii(UpToNul(name)), ascii) {
      SectionOfSegment(e, data, c, name, sections, ascii, i);
    }
  }

  lemma SectionOfSegment(e: Endian, data: Bytes, c: Command, name: Bytes, sections: seq<RawSection>,
                         ascii: Bytes -> string, i: nat)
    requires Inside(c, data) && c.kind == LC_SEGMENT_64 && SegmentFits(e, data, c) && i < |sections|
    requires SectionCount(e, data, c) == |sections| && data[c.start + 8..c.start + 24] == name && AllRaw(sections)
    requires data[c.start + 72..c.start + c.size] == EncodeSections(e, sections)
    ensures var found := SectionsOf(e, data, c, ascii);
            i < |found| && found[i] == sections[i].Read(ascii(UpToNul(name)), ascii)
  {
    var segment := ascii(UpToNul(name));
    SectionReadAt(e, data, c.start + 72, c.start + c.size, sections, segment, ascii, i);
    SectionIsAt(e, data, c, segment, c.start + 72 + 80 * i, ascii, i, sections[i].Read(segment, ascii));
  }

  lemma SectionIsAt(e: Endian, data: Bytes, c: Command, segment: string, at: nat, ascii: Bytes -> string, i: nat,
                    s: Section)
    requires Inside(c, data) && c.kind == LC_SEGMENT_64 && SegmentFits(e, data, c) && i < SectionCount(e, data, c)
    requires segment == ascii(UpToNul(data[c.start + 8..c.start + 24])) && at == c.start + 72 + 80 * i
    requires at + 80 <= |data| && SectionAt(e, data, segment, at, ascii) == s
    ensures |SectionsOf(e, data, c, ascii)| == SectionCount(e, data, c) && SectionsOf(e, data, c, ascii)[i] == s
  {
  }

  lemma SegmentLayout(e: Endian, data: Bytes, c: Command, name: Bytes, middle: Bytes, flags: Bytes,
                      sections: seq<RawSection>)
    requires Inside(c, data)
    requires data[c.start + 8..c.start + c.size] == SegmentBody(e, name, middle, flags, sections)
    requires |name| == 16 && |middle| == 40 && |flags| == 4 && |sections| <= 4096 && AllRaw(sections)
    ensures SegmentFits(e, data, c) && SectionCount(e, data, c) == |sections|
    ensures data[c.start + 8..c.start + 24] == name && data[c.start + 72..c.start + c.size]
            == EncodeSections(e, sections)
  {
    SectionsLength(e, sections);
    SegmentApart(data, c.start + 8, c.start + c.size, name, middle, Enc(e, |sections|, 4), flags,
                 EncodeSections(e, sections));
    SegmentCounts(e, data, c, |sections|);
  }

  lemma SegmentCounts(e: Endian, data: Bytes, c: Command, count: nat)
    requires Inside(c, data) && count <= 4096 && c.size == 72 + 80 * count
             && data[c.start + 64..c.start + 68] == Enc(e, count, 4)
    ensures SegmentFits(e, data, c) && SectionCount(e, data, c) == count
  {
    NumReadsBack(e, data, c.start + 64, count);
  }

  lemma SegmentApart(data: Bytes, from: nat, to: nat, name: Bytes, middle: Bytes, count: Bytes, flags: Bytes,
                     sections: Bytes)
    requires from <= to <= |data| && data[from..to] == name + middle + count + (flags + sections)
    requires |name| == 16 && |middle| == 40 && |count| == 4 && |flags| == 4
    ensures to == from + 64 + |sections| && data[from..from + 16] == name
    ensures data[from + 56..from + 60] == count && data[from + 64..to] == sections
  {
    Apart(data, from, to, name, middle, count, flags + sections);
    TakeOff(data, from + 60, to, flags, sections);
  }

  // ----- the parser -----

  method ParseSegment64(data: Bytes, cursor: nat, size: nat, e: Endian, ascii: Bytes -> string,
                        result: MachoAnalysisResult)
    requires size >= 8 && cursor + size <= |data|
    modifies result`sections, result`parseErrors, result`parseStatus
    ensures var c := Command(cursor, LC_SEGMENT_64, size);
            && result.sections == old(result.sections) + SectionsOf(e, data, c, ascii)
            && result.parseErrors == old(result.parseErrors) + Complaint(e, data, c)
            && result.parseStatus == if Malformed(e, data, c) then PartialResult else old(result.parseStatus)
  {
    var c := Command(cursor, LC_SEGMENT_64, size);
    assert old(result.sections) + [] == old(result.sections);
    if size < 72 {
      result.parseErrors := result.parseErrors + ["Truncated LC_SEGMENT_64 command"];
      result.parseStatus := PartialResult;
      return;
    }
    var segment := ascii(UpToNul(data[cursor + 8..cursor + 24]));
    var count := U32At(e, data, cursor + 64);
    if count > 4096 || 72 + count * 80 > size {
      result.parseErrors := result.parseErrors + ["LC_SEGMENT_64 section table exceeds command bounds"];
      result.parseStatus := PartialResult;
      return;
    }
    AppendSections(data, c, e, ascii, segment, count, result);
  }

  method AppendSections(data: Bytes, c: Command, e: Endian, ascii: Bytes -> string, segment: string, count: nat,
                        result: MachoAnalysisResult)
    requires Inside(c, data) && c.kind == LC_SEGMENT_64 && SegmentFits(e, data, c)
    requires segment == ascii(UpToNul(data[c.start + 8..c.start + 24])) && count == SectionCount(e, data, c)
    modifies result`sections
    ensures result.sections == old(result.sections) + SectionsOf(e, data, c, ascii)
  {
    var sectionCursor := c.start + 72;
    ghost var found := SectionsOf(e, data, c, ascii);
    for i := 0 to count
      invariant sectionCursor == c.start + 72 + 80 * i
      invariant result.sections == old(result.sections) + found[..i]
    {
      PrefixMore(found, i);
      Regroup(old(result.sections), found[..i], [found[i]]);
      result.sections := result.sections + [SectionAt(e, data, segment, sectionCursor, ascii)];
      sectionCursor := sectionCursor + 80;
    }
    assert found[..count] == found;
  }

  function TroubleText(t: Option<Trouble>): seq<string> {
    match t
    case None => []
    case Some(HeaderBeyondRegion) => ["Load-command header exceeds declared command region"]
    case Some(InvalidSize) => ["Invalid load-command size"]
  }

  function WithErrors(image: Image, errors: seq<string>): Image {
    image.(errors := image.errors + errors)
  }

  /** What the loop has done to the result after some commands. */
  ghost function Loading(e: Endian, data: Bytes, start: Image, before: Status, ascii: Bytes -> string,
                         utf8: Bytes -> string):
    (seq<Command>, Image, Status) -> bool
  {
    (commands: seq<Command>, image: Image, status: Status) =>
      && (forall c :: c in commands ==> Inside(c, data))
      && image == Loaded(e, data, start, commands, ascii, utf8)
      && status == if AnyMalformed(e, data, commands) then PartialResult else before
  }

  lemma LoadingStep(e: Endian, data: Bytes, start: Image, before: Status, ascii: Bytes -> string,
                    utf8: Bytes -> string, commands: seq<Command>, image: Image, status: Status, c: Command,
                    image': Image, status': Status)
    requires Loading(e, data, start, before, ascii, utf8)(commands, image, status) && Inside(c, data)
    requires image' == Applied(e, data, image, c, ascii, utf8)
             && status' == if Malformed(e, data, c) then PartialResult else status
    ensures Loading(e, data, start, before, ascii, utf8)(commands + [c], image', status')
  {
    LoadedStep(e, data, start, commands, c, ascii, utf8);
    MalformedMore(e, data, commands, c);
  }

  lemma MalformedMore(e: Endian, data: Bytes, commands: seq<Command>, c: Command)
    requires Inside(c, data)
    ensures AnyMalformed(e, data, commands + [c]) <==> AnyMalformed(e, data, commands) || Malformed(e, data, c)
  {
    assert forall b :: b in commands + [c] <==> b in commands || b == c;
  }

  lemma WalkPrefix(e: Endian, data: Bytes, cursor: nat, end: nat, count: nat)
    requires cursor <= end <= |data| && count > 0 && cursor + 8 <= end
    requires 8 <= U32At(e, data, cursor + 4) && cursor + U32At(e, data, cursor + 4) <= end
    ensures var size := U32At(e, data, cursor + 4);
            var rest := Walk(e, data, cursor + size, end, count - 1);
            var w := Walk(e, data, cursor, end, count);
            && w.commands == [Command(cursor, U32At(e, data, cursor), size)] + rest.commands
               && w.trouble == rest.trouble
  {
  }

  /** Reads one command into the result. */
  method ParseCommand(data: Bytes, c: Command, e: Endian, symtab: Option<Symtab>, ascii: Bytes -> string,
                      utf8: Bytes -> string, result: MachoAnalysisResult) returns (symtab': Option<Symtab>)
    requires Inside(c, data)
    modifies result`sections, result`parseErrors, result`parseStatus, result`importedDylibs
    ensures Image(result.sections, result.importedDylibs, symtab', result.parseErrors) ==
            Applied(e, data, old(Image(result.sections, result.importedDylibs, symtab, result.parseErrors)), c,
                    ascii, utf8)
    ensures result.parseStatus == if Malformed(e, data, c) then PartialResult else old(result.parseStatus)
  {
    symtab' := symtab;
    assert old(result.sections) + [] == old(result.sections) && old(result.parseErrors) + [] == old(result.parseErrors);
    if c.kind == LC_SEGMENT_64 {
      ParseSegment64(data, c.start, c.size, e, ascii, result);
    }
    if c.kind == LC_SYMTAB {
      if c.size >= 24 {
        symtab' := SymtabOf(e, data, c);
      } else {
        result.parseStatus := PartialResult;
        result.parseErrors := result.parseErrors + ["Truncated LC_SYMTAB command"];
      }
    }
    if c.kind in DYLIB_COMMANDS {
      result.importedDylibs := With(result.importedDylibs, DylibOf(e, data, c, utf8));
    }
  }

  /** The loop between two commands: some are in the image, the rest is still to be walked. */
  datatype Progress = Progress(done: seq<Command>, cursor: nat, left: nat, image: Image, status: Status)

  ghost function LoadingFrom(e: Endian, data: Bytes, end: nat, start: Image, before: Status, all: Walked,
                             ascii: Bytes -> string, utf8: Bytes -> string): Progress -> bool
  {
    (g: Progress) =>
      && Loading(e, data, start, before, ascii, utf8)(g.done, g.image, g.status)
      && Remaining(e, data, end, all)(g.done, g.cursor, g.left)
  }

  /** What is still to be walked is what is missing from all commands. */
  ghost function Remaining(e: Endian, data: Bytes, end: nat, all: Walked): (seq<Command>, nat, nat) -> bool {
    (done: seq<Command>, cursor: nat, left: nat) =>
      && cursor <= end <= |data|
      && var rest := Walk(e, data, cursor, end, left);
         all.commands == done + rest.commands && all.trouble == rest.trouble
  }

  ghost function LoadedAll(e: Endian, data: Bytes, start: Image, before: Status, all: Walked, ascii: Bytes -> string,
                           utf8: Bytes -> string):
    (Image, Status) -> bool
  {
    (image: Image, status: Status) =>
      && (forall c :: c in all.commands ==> Inside(c, data))
      && image == WithErrors(Loaded(e, data, start, all.commands, ascii, utf8), TroubleText(all.trouble))
      && status == if all.trouble.Some? || AnyMalformed(e, data, all.commands) then PartialResult else before
  }

  lemma LoadingStarts(e: Endian, data: Bytes, end: nat, start: Image, before: Status, count: nat,
                      ascii: Bytes -> string, utf8: Bytes -> string)
    requires 32 <= end <= |data|
    ensures LoadingFrom(e, data, end, start, before, Walk(e, data, 32, end, count), ascii, utf8)(
              Progress([], 32, count, start, before))
  {
    var all := Walk(e, data, 32, end, count);
    assert [] + all.commands == all.commands;
    assert !AnyMalformed(e, data, []);
    assert Loading(e, data, start, before, ascii, utf8)([], start, before);
  }

  lemma LoadingMore(e: Endian, data: Bytes, end: nat, start: Image, before: Status, all: Walked,
                    ascii: Bytes -> string, utf8: Bytes -> string, g: Progress, c: Command, image: Image,
                    status: Status)
    requires g.left > 0 && Remaining(e, data, end, all)(g.done, g.cursor, g.left) && g.cursor + 8 <= end <= |data|
    requires c == Command(g.cursor, U32At(e, data, g.cursor), U32At(e, data, g.cursor + 4)) && 8 <= c.size
             && g.cursor + c.size <= end
    requires Loading(e, data, start, before, ascii, utf8)(g.done + [c], image, status)
    ensures LoadingFrom(e, data, end, start, before, all, ascii, utf8)(
              Progress(g.done + [c], g.cursor + c.size, g.left - 1, image, status))
  {
    WalkMore(e, data, end, all, g.done, c, g.left);
  }

  lemma LoadingParts(e: Endian, data: Bytes, end: nat, start: Image, before: Status, all: Walked,
                     ascii: Bytes -> string, utf8: Bytes -> string, g: Progress)
    requires LoadingFrom(e, data, end, start, before, all, ascii, utf8)(g)
    ensures Loading(e, data, start, before, ascii, utf8)(g.done, g.image, g.status)
    ensures Remaining(e, data, end, all)(g.done, g.cursor, g.left)
  {
  }

  lemma WalkMore(e: Endian, data: Bytes, end: nat, all: Walked, done: seq<Command>, c: Command, left: nat)
    requires left > 0 && c.start + 8 <= end <= |data| && 8 <= c.size && c.start + c.size <= end
    requires c == Command(c.start, U32At(e, data, c.start), U32At(e, data, c.start + 4))
    requires Remaining(e, data, end, all)(done, c.start, left)
    ensures Remaining(e, data, end, all)(done + [c], c.start + c.size, left - 1)
  {
    WalkPrefix(e, data, c.start, end, left);
    Regroup(done, [c], Walk(e, data, c.start + c.size, end, left - 1).commands);
  }

  lemma LoadingEnds(e: Endian, data: Bytes, end: nat, start: Image, before: Status, all: Walked,
                    ascii: Bytes -> string, utf8: Bytes -> string, g: Progress, trouble: Option<Trouble>)
    requires LoadingFrom(e, data, end, start, before, all, ascii, utf8)(g) && g.cursor <= end <= |data|
    requires Walk(e, data, g.cursor, end, g.left) == Walked([], g.cursor, trouble)
    ensures LoadedAll(e, data, start, before, all, ascii, utf8)(
              WithErrors(g.image, TroubleText(trouble)), if trouble.Some? then PartialResult else g.status)
  {
    assert g.done + [] == g.done;
    assert Loading(e, data, start, before, ascii, utf8)(g.done, g.image, g.status);
  }

  method NextCommand(data: Bytes, e: Endian, end: nat, cursor: nat, symtab: Option<Symtab>, ascii: Bytes -> string,
                     utf8: Bytes -> string, result: MachoAnalysisResult, ghost start: Image, ghost before: Status,
                     ghost all: Walked, ghost g: Progress)
    returns (symtab': Option<Symtab>, next: nat, ghost g': Progress)
    requires cursor + 8 <= end <= |data| && 8 <= U32At(e, data, cursor + 4)
             && cursor + U32At(e, data, cursor + 4) <= end
    requires g.cursor == cursor && g.left > 0 && g.status == result.parseStatus
    requires g.image == Image(result.sections, result.importedDylibs, symtab, result.parseErrors)
    requires LoadingFrom(e, data, end, start, before, all, ascii, utf8)(g)
    modifies result`sections, result`parseErrors, result`parseStatus, result`importedDylibs
    ensures g'.cursor == next <= end && g'.left == g.left - 1 && g'.status == result.parseStatus
    ensures g'.image == Image(result.sections, result.importedDylibs, symtab', result.parseErrors)
    ensures LoadingFrom(e, data, end, start, before, all, ascii, utf8)(g')
  {
    var c := Command(cursor, U32At(e, data, cursor), U32At(e, data, cursor + 4));
    symtab' := ParseCommand(data, c, e, symtab, ascii, utf8, result);
    ghost var image := Image(result.sections, result.importedDylibs, symtab', result.parseErrors);
    LoadingParts(e, data, end, start, before, all, ascii, utf8, g);
    LoadingStep(e, data, start, before, ascii, utf8, g.done, g.image, g.status, c, image, result.parseStatus);
    LoadingMore(e, data, end, start, before, all, ascii, utf8, g, c, image, result.parseStatus);
    next := cursor + c.size;
    g' := Progress(g.done + [c], next, g.left - 1, image, result.parseStatus);
  }

  method ParseLoadCommands(data: Bytes, e: Endian, end: nat, count: nat, ascii: Bytes -> string,
                           utf8: Bytes -> string, result: MachoAnalysisResult) returns (symtab: Option<Symtab>)
    requires 32 <= end <= |data|
    modifies result`sections, result`parseErrors, result`parseStatus, result`importedDylibs
    ensures LoadedAll(e, data, old(Image(result.sections, result.importedDylibs, None, result.parseErrors)),
                      old(result.parseStatus),
                      Walk(e, data, 32, end, count), ascii, utf8)(
              Image(result.sections, result.importedDylibs, symtab, result.parseErrors), result.parseStatus)
  {
    symtab := None;
    var cursor: nat := 32;
    ghost var start, before := Image(result.sections, result.importedDylibs, None, result.parseErrors),
        result.parseStatus;
    ghost var all, g := Walk(e, data, 32, end, count), Progress([], 32, count, start, before);
    LoadingStarts(e, data, end, start, before, count, ascii, utf8);
    for n := 0 to count
      invariant g.cursor == cursor <= end && g.left == count - n && g.status == result.parseStatus
      invariant g.image == Image(result.sections, result.importedDylibs, symtab, result.parseErrors)
      invariant LoadingFrom(e, data, end, start, before, all, ascii, utf8)(g)
    {
      if cursor + 8 > end {
        LoadingEnds(e, data, end, start, before, all, ascii, utf8, g, Some(HeaderBeyondRegion));
        result.parseErrors := result.parseErrors + ["Load-command header exceeds declared command region"];
        result.parseStatus := PartialResult;
        return;
      }
      if U32At(e, data, cursor + 4) < 8 || cursor + U32At(e, data, cursor + 4) > end {
        LoadingEnds(e, data, end, start, before, all, ascii, utf8, g, Some(InvalidSize));
        result.parseErrors := result.parseErrors + ["Invalid load-command size"];
        result.parseStatus := PartialResult;
        return;
      }
      symtab, cursor, g := NextCommand(data, e, end, cursor, symtab, ascii, utf8, result, start, before, all, g);
    }
    LoadingEnds(e, data, end, start, before, all, ascii, utf8, g, None);
    assert result.parseErrors + [] == result.parseErrors;
  }

  // ----- the symbol table -----

  function SymtabComplaint(data: Bytes, t: Symtab): Option<string> {
    if t.symbolCount > MAX_SYMBOLS || t.stringSize > MAX_STRINGS then
      Some("Symbol/string table exceeds bounded count or size")
    else if t.symbolOffset + t.symbolCount * 16 > |data| || t.stringOffset + t.stringSize > |data| then
      Some("Symbol/string table range exceeds bounded input")
    else None
  }

  /** The name of the i-th symbol, if it has one that ends inside the string table. */
  function SymbolAt(e: Endian, data: Bytes, t: Symtab, utf8: Bytes -> string, i: nat): Option<string>
    requires SymtabComplaint(data, t) == None && i < t.symbolCount
  {
    var strings := data[t.stringOffset..t.stringOffset + t.stringSize];
    var nameIndex := U32At(e, data, t.symbolOffset + 16 * i);
    if nameIndex == 0 || nameIndex >= |strings| then None
    else
      var end := NulFrom(strings, nameIndex);
      if end == |strings| || end - nameIndex > 4096 || utf8(strings[nameIndex..end]) == "" then None
      else Some(utf8(strings[nameIndex..end]))
  }

  ghost function Symbols(e: Endian, data: Bytes, t: Symtab, utf8: Bytes -> string): nat -> Option<string>
    requires SymtabComplaint(data, t) == None
  {
    (i: nat) => if i < t.symbolCount then SymbolAt(e, data, t, utf8, i) else None
  }

  /** Names of the first n items were added, each once; all of them unless the limit was reached. */
  ghost predicate Sampled(before: seq<string>, after: seq<string>, item: nat -> Option<string>, n: nat, limited: bool) {
    && before <= after && (NoRepeats(before) ==> NoRepeats(after))
    && (forall name :: name in after ==> name in before || exists i :: 0 <= i < n && item(i) == Some(name))
    && (limited ==> |after| >= MAX_NAMES)
    && (!limited ==> forall i :: 0 <= i < n && item(i).Some? ==> item(i).value in after)
  }

  lemma SampledMore(before: seq<string>, names: seq<string>, item: nat -> Option<string>, n: nat)
    requires Sampled(before, names, item, n, false)
    ensures Sampled(before, With(names, item(n)), item, n + 1, false)
    ensures |With(names, item(n))| >= MAX_NAMES ==> Sampled(before, With(names, item(n)), item, n + 1, true)
  {
  }

  lemma SampledStops(before: seq<string>, names: seq<string>, item: nat -> Option<string>, n: nat, all: nat)
    requires Sampled(before, names, item, n, true) && n <= all
    ensures Sampled(before, names, item, all, true)
  {
    forall name | name in names ensures name in before || exists i :: 0 <= i < all && item(i) == Some(name) {
      if name !in before {
        var i :| 0 <= i < n && item(i) == Some(name);
        assert 0 <= i < all && item(i) == Some(name);
      }
    }
  }

  method ParseSymbolTable(data: Bytes, t: Symtab, e: Endian, utf8: Bytes -> string, result: MachoAnalysisResult)
    returns (ghost limited: bool)
    modifies result`symbolNames, result`parseErrors, result`parseStatus
    ensures var complaint := SymtabComplaint(data, t);
            if complaint.Some? then
              && result.parseStatus == PartialResult && result.parseErrors
                 == old(result.parseErrors) + [complaint.value]
              && result.symbolNames == old(result.symbolNames)
            else
              && Sampled(old(result.symbolNames), result.symbolNames, Symbols(e, data, t, utf8), t.symbolCount, limited)
              && result.parseStatus == (if limited then PartialResult else old(result.parseStatus))
              && result.parseErrors == old(result.parseErrors)
                 + (if limited then ["Symbol name sample limit reached"] else [])
  {
    limited := false;
    assert old(result.parseErrors) + [] == old(result.parseErrors);
    if t.symbolCount > MAX_SYMBOLS || t.stringSize > MAX_STRINGS {
      result.parseStatus := PartialResult;
      result.parseErrors := result.parseErrors + ["Symbol/string table exceeds bounded count or size"];
      return;
    }
    if t.symbolOffset + t.symbolCount * 16 > |data| || t.stringOffset + t.stringSize > |data| {
      result.parseStatus := PartialResult;
      result.parseErrors := result.parseErrors + ["Symbol/string table range exceeds bounded input"];
      return;
    }
    ghost var item := Symbols(e, data, t, utf8);
    for index := 0 to t.symbolCount
      invariant Sampled(old(result.symbolNames), result.symbolNames, item, index, false) && !limited
      invariant result.parseStatus == old(result.parseStatus) && result.parseErrors == old(result.parseErrors)
    {
      var name := SymbolAt(e, data, t, utf8, index);
      SampledMore(old(result.symbolNames), result.symbolNames, item, index);
      if name.Some? && name.value !in result.symbolNames {
        result.symbolNames := result.symbolNames + [name.value];
        if |result.symbolNames| >= MAX_NAMES {
          result.parseStatus := PartialResult;
          result.parseErrors := result.parseErrors + ["Symbol name sample limit reached"];
          limited := true;
          SampledStops(old(result.symbolNames), result.symbolNames, item, index + 1, t.symbolCount);
          return;
        }
      }
    }
  }

  // ----- the whole file -----

  function EndianOf(data: Bytes): Endian
    requires |data| >= 4
  {
    if data[..4] == MAGIC_LITTLE then Little else Big
  }

  predicate RegionFits(e: Endian, data: Bytes)
    requires |data| >= 32
  {
    U32At(e, data, 16) <= 65536 && U32At(e, data, 20) <= MAX_BINARY_BYTES && 32 + U32At(e, data, 20) <= |data|
  }

  ghost function Commands(e: Endian, data: Bytes): Walked
    requires |data| >= 32 && RegionFits(e, data)
  {
    Walk(e, data, 32, 32 + U32At(e, data, 20), U32At(e, data, 16))
  }

  /** What a caller sees of the load commands: sections, libraries, symbols, and a partial status for any trouble. */
  ghost function Reflects(e: Endian, data: Bytes, start: Image, before: Status, names: seq<string>,
                          ascii: Bytes -> string, utf8: Bytes -> string):
    (seq<Section>, seq<string>, seq<string>, Status, bool) -> bool
    requires |data| >= 32 && RegionFits(e, data)
  {
    (sections: seq<Section>, dylibs: seq<string>, symbols: seq<string>, status: Status, limited: bool) =>
      exists image, loaded ::
        && LoadedAll(e, data, start, before, Commands(e, data), ascii, utf8)(image, loaded)
        && sections == image.sections && dylibs == image.dylibs
        && SymbolsRead(e, data, image.symtab, names, symbols, utf8, loaded, status, limited)
  }

  /** Without a symbol table nothing changes; an unreadable one, or too many names, make the status partial. */
  ghost predicate SymbolsRead(e: Endian, data: Bytes, symtab: Option<Symtab>, names: seq<string>,
                              symbols: seq<string>, utf8: Bytes -> string, loaded: Status, status: Status,
                              limited: bool) {
    match symtab
    case None => symbols == names && status == loaded
    case Some(t) =>
      if SymtabComplaint(data, t).Some? then symbols == names && status == PartialResult
      else
        && Sampled(names, symbols, Symbols(e, data, t, utf8), t.symbolCount, limited)
        && status == if limited then PartialResult else loaded
  }

  lemma Reflected(e: Endian, data: Bytes, start: Image, before: Status, names: seq<string>, ascii: Bytes -> string,
                  utf8: Bytes -> string, image: Image, loaded: Status, symbols: seq<string>, status: Status,
                  limited: bool)
    requires |data| >= 32 && RegionFits(e, data)
    requires LoadedAll(e, data, start, before, Commands(e, data), ascii, utf8)(image, loaded)
    requires SymbolsRead(e, data, image.symtab, names, symbols, utf8, loaded, status, limited)
    ensures Reflects(e, data, start, before, names, ascii, utf8)(image.sections, image.dylibs, symbols, status, limited)
  {
  }

  /** Load commands and symbols of a file whose region fits. */
  method ParseRegion(data: Bytes, e: Endian, ascii: Bytes -> string, utf8: Bytes -> string, result: MachoAnalysisResult)
    returns (ghost limited: bool)
    requires |data| >= 32 && RegionFits(e, data)
    modifies result`sections, result`parseErrors, result`parseStatus, result`importedDylibs, result`symbolNames,
             result`loadCommandsCount
    ensures result.loadCommandsCount == U32At(e, data, 16)
    ensures Reflects(e, data, old(Image(result.sections, result.importedDylibs, None, result.parseErrors)),
                     old(result.parseStatus),
                     old(result.symbolNames), ascii, utf8)(
              result.sections, result.importedDylibs, result.symbolNames, result.parseStatus, limited)
  {
    limited := false;
    ghost var start, before := Image(result.sections, result.importedDylibs, None, result.parseErrors),
        result.parseStatus;
    ghost var names := result.symbolNames;
    var count := U32At(e, data, 16);
    var symtab := ParseLoadCommands(data, e, 32 + U32At(e, data, 20), count, ascii, utf8, result);
    result.loadCommandsCount := count;
    ghost var image, loaded := Image(result.sections, result.importedDylibs, symtab, result.parseErrors),
        result.parseStatus;
    if symtab.Some? {
      limited := ParseSymbolTable(data, symtab.value, e, utf8, result);
    }
    Reflected(e, data, start, before, names, ascii, utf8, image, loaded, result.symbolNames, result.parseStatus,
              limited);
  }

  /** What is known about a file whose region fits: its load commands, and the Swift metadata of the sections they
   declare. */
  method ParseDeclared(data: Bytes, e: Endian, ascii: Bytes -> string, utf8: Bytes -> string, strict: Strict,
                       strictAscii: Strict, result: MachoAnalysisResult) returns (ghost limited: bool)
    requires |data| >= 32 && RegionFits(e, data)
    modifies result
    ensures result.loadCommandsCount == U32At(e, data, 16)
    ensures Reflects(e, data, old(Image(result.sections, result.importedDylibs, None, result.parseErrors)),
                     old(result.parseStatus),
                     old(result.symbolNames), ascii, utf8)(
              result.sections, result.importedDylibs, result.symbolNames, result.parseStatus, limited)
    ensures SwiftRead(e, data, result.sections, strict, strictAscii)(old(SwiftIn(result)), SwiftIn(result))
  {
    limited := ParseRegion(data, e, ascii, utf8, result);
    ParseSwift(data, e, strict, strictAscii, result);
  }

  /**
   The whole 64-bit parser. Its two refusals leave everything but status and errors alone; otherwise the sections,
   libraries and symbols are those of the accepted commands, and the Swift inventories those of the sections.
   */
  method ParseThin64(data: Bytes, ascii: Bytes -> string, utf8: Bytes -> string, strict: Strict, strictAscii: Strict,
                     result: MachoAnalysisResult) returns (ghost limited: bool)
    modifies result
    ensures |data| < 32 ==>
              && result.parseStatus == Truncated && result.sections == old(result.sections)
              && result.importedDylibs == old(result.importedDylibs) && result.symbolNames == old(result.symbolNames)
              && result.loadCommandsCount == old(result.loadCommandsCount) && SwiftIn(result) == old(SwiftIn(result))
              && result.parseErrors == old(result.parseErrors) + ["Truncated 64-bit Mach-O header"]
    ensures |data| >= 32 && !RegionFits(EndianOf(data), data) ==>
              && result.parseStatus == PartialResult && result.sections == old(result.sections)
              && result.importedDylibs == old(result.importedDylibs) && result.symbolNames == old(result.symbolNames)
              && result.loadCommandsCount == old(result.loadCommandsCount) && SwiftIn(result) == old(SwiftIn(result))
              && result.parseErrors == old(result.parseErrors) + ["Load-command region exceeds available bounded input"]
    ensures |data| >= 32 && RegionFits(EndianOf(data), data) ==>
              && result.loadCommandsCount == U32At(EndianOf(data), data, 16)
              && Reflects(EndianOf(data), data, old(Image(result.sections, result.importedDylibs, None,
                                                          result.parseErrors)),
                          old(result.parseStatus), old(result.symbolNames), ascii, utf8)(
                   result.sections, result.importedDylibs, result.symbolNames, result.parseStatus, limited)
              && SwiftRead(EndianOf(data), data, result.sections, strict, strictAscii)(old(SwiftIn(result)),
                 SwiftIn(result))
  {
    limited := false;
    if |data| < 32 {
      result.parseStatus := Truncated;
      result.parseErrors := result.parseErrors + ["Truncated 64-bit Mach-O header"];
      return;
    }
    var e := EndianOf(data);
    if U32At(e, data, 16) > 65536 || U32At(e, data, 20) > MAX_BINARY_BYTES || 32 + U32At(e, data, 20) > |data| {
      result.parseStatus := PartialResult;
      result.parseErrors := result.parseErrors + ["Load-command region exceeds available bounded input"];
      return;
    }
    limited := ParseDeclared(data, e, ascii, utf8, strict, strictAscii, result);
  }

  // ----- from the load commands to the Swift metadata -----

  /** The sections a caller sees are those of the accepted commands, after what was there before. */
  lemma SectionsAreDeclared(e: Endian, data: Bytes, start: Image, before: Status, names: seq<string>,
                            ascii: Bytes -> string, utf8: Bytes -> string, sections: seq<Section>,
                            dylibs: seq<string>, symbols: seq<string>, status: Status, limited: bool)
    requires |data| >= 32 && RegionFits(e, data)
    requires Reflects(e, data, start, before, names, ascii, utf8)(sections, dylibs, symbols, status, limited)
    ensures forall c :: c in Commands(e, data).commands ==> Inside(c, data)
    ensures sections == start.sections + SectionsIn(e, data, Commands(e, data).commands, ascii)
  {
    var image, loaded :|
      && LoadedAll(e, data, start, before, Commands(e, data), ascii, utf8)(image, loaded)
      && sections == image.sections && dylibs == image.dylibs
      && SymbolsRead(e, data, image.symtab, names, symbols, utf8, loaded, status, limited);
    LoadedSections(e, data, start, before, Commands(e, data), ascii, utf8, image, loaded);
  }

  lemma LoadedSections(e: Endian, data: Bytes, start: Image, before: Status, all: Walked, ascii: Bytes -> string,
                       utf8: Bytes -> string, image: Image, loaded: Status)
    requires LoadedAll(e, data, start, before, all, ascii, utf8)(image, loaded)
    ensures forall c :: c in all.commands ==> Inside(c, data)
    ensures image.sections == start.sections + SectionsIn(e, data, all.commands, ascii)
  {
    assert forall c :: c in all.commands ==> Inside(c, data);
    SectionsLoaded(e, data, start, all.commands, ascii, utf8);
  }

  lemma {:induction false} DeclaredIsIn(e: Endian, data: Bytes, commands: seq<Command>, ascii: Bytes -> string,
                                        c: Command, s: Section)
    requires (forall d :: d in commands ==> Inside(d, data)) && c in commands && s in SectionsOf(e, data, c, ascii)
    ensures s in SectionsIn(e, data, commands, ascii)
  {
    if c != commands[0] {
      DeclaredIsIn(e, data, commands[1..], ascii, c, s);
    }
  }

  /**
   From the bytes of the load commands to the names: if the types of a file were parsed, then every entry of every type
   section that any accepted command declares was followed to its name and to all of its field records.
   */
  lemma DeclaredTypesAreFollowed(e: Endian, data: Bytes, start: Image, before: Status, names: seq<string>,
                                 ascii: Bytes -> string, utf8: Bytes -> string, sections: seq<Section>,
                                 dylibs: seq<string>, symbols: seq<string>, status: Status, limited: bool,
                                 strict: Strict, strictAscii: Strict, was: Swift, now: Swift, c: Command, s: Section,
                                 p: nat)
    requires |data| >= 32 && RegionFits(e, data)
    requires Reflects(e, data, start, before, names, ascii, utf8)(sections, dylibs, symbols, status, limited)
    requires SwiftRead(e, data, sections, strict, strictAscii)(was, now) && now.types.status == Parsed
    requires c in Commands(e, data).commands && Inside(c, data)
    requires s in SectionsOf(e, data, c, ascii) && s.name == "__swift5_types" && p in EntriesOf(s)
    ensures Readable(data, s) && TypeFollowed(ViewOf(e, data, sections, strict, strictAscii), p, now.types)
  {
    SectionsAreDeclared(e, data, start, before, names, ascii, utf8, sections, dylibs, symbols, status, limited);
    DeclaredIsIn(e, data, Commands(e, data).commands, ascii, c, s);
    TypesParsed(e, data, sections, strict, strictAscii, was.types, now.types, s, p);
  }

  /** The same for conformances: every pair that an entry of an accepted command's section leads to is listed. */
  lemma DeclaredConformancesAreListed(e: Endian, data: Bytes, start: Image, before: Status, names: seq<string>,
                                      ascii: Bytes -> string, utf8: Bytes -> string, sections: seq<Section>,
                                      dylibs: seq<string>, symbols: seq<string>, status: Status, limited: bool,
                                      strict: Strict, strictAscii: Strict, was: Swift, now: Swift, c: Command,
                                      s: Section, p: nat)
    requires |data| >= 32 && RegionFits(e, data)
    requires Reflects(e, data, start, before, names, ascii, utf8)(sections, dylibs, symbols, status, limited)
    requires SwiftRead(e, data, sections, strict, strictAscii)(was, now) && now.conformanceStatus == Parsed
    requires c in Commands(e, data).commands && Inside(c, data)
    requires s in SectionsOf(e, data, c, ascii) && s.name == "__swift5_proto" && p in EntriesOf(s)
    ensures Readable(data, s) && p + 4 <= |data| && ResolveConformance(e, data, p, strict) != Broken
    ensures ResolveConformance(e, data, p, strict).Found? ==>
            ResolveConformance(e, data, p, strict).value in now.conformances
  {
    SectionsAreDeclared(e, data, start, before, names, ascii, utf8, sections, dylibs, symbols, status, limited);
    DeclaredIsIn(e, data, Commands(e, data).commands, ascii, c, s);
    ConformancesParsed(e, data, sections, strict, was.conformances, was.conformanceStatus, now.conformances, s, p);
  }
}
