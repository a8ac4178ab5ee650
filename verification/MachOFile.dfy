/**
 A Mach-O file as it is written: header, library and symbol-table commands, symbols, and the Swift metadata of the
 sections its commands declare. What is written is what the parser reads.
 */
module MachOFile {
  import opened Wrappers
  import opened LittleEndian
  import opened MachO
  import opened SwiftMetadata
  import opened SwiftFields
  import opened SwiftInventory
  import opened SwiftLayout
  import opened SwiftFieldLayout
  import opened MachOParser

  // ----- the header -----

  /** The magic number in the byte order of the file, and the number and the size of the load commands. */
  ghost predicate HeaderStands(e: Endian, data: Bytes, count: nat, size: nat) {
    && |data| >= 32 && count < U32 && size < U32
    && Stands(data, 0, if e.Little? then [0xCF, 0xFA, 0xED, 0xFE] else [0xFE, 0xED, 0xFA, 0xCF])
    && Stands(data, 16, Enc(e, count, 4)) && Stands(data, 20, Enc(e, size, 4))
  }

  /** The commands of a written file are found again, whatever follows them in the region and behind it. */
  lemma FileReadsBack(e: Endian, data: Bytes, written: seq<Written>, rest: Bytes, size: nat)
    requires HeaderStands(e, data, |written|, size) && |written| <= 65536 && size <= 15728640 && 32 + size <= |data|
    requires data[32..32 + size] == EncodeAll(e, written) + rest && AllEncodable(written)
    ensures EndianOf(data) == e && RegionFits(e, data)
    ensures Commands(e, data) == Walked(Placed(written, 32), 32 + size - |rest|, None)
  {
    NumberStands(e, data, 16, |written|);
    NumberStands(e, data, 20, size);
    assert data[0..4] == data[..4];
    MagicDiffers();
    WalkReadsBack(e, data, 32, 32 + size, written, rest);
  }

  lemma MagicDiffers()
    ensures var big: Bytes := [0xFE, 0xED, 0xFA, 0xCF]; big != MAGIC_LITTLE
  {
    assert MAGIC_LITTLE[0] == 0xCF;
  }

  // ----- imported libraries -----

  /** A text of the command that starts at its offset and ends with a NUL inside the command. */
  ghost predicate LibraryStands(e: Endian, data: Bytes, c: Command, offset: nat, raw: Bytes) {
    && c.kind in {0x0C, 0x0D, 0x20, 0x8000_0018, 0x8000_001F, 0x8000_0023} && 24 <= c.size
    && offset < U32 && Stands(data, c.start + 8, Enc(e, offset, 4))
    && 24 <= offset && offset + |raw| + 1 <= c.size && 0 !in raw && Stands(data, c.start + offset, raw + [0])
  }

  lemma NulAfter(data: Bytes, from: nat, raw: Bytes)
    requires from <= |data|
    ensures 0 !in raw && Stands(data, from, raw + [0]) <==>
            NulFrom(data, from) < |data| && data[from..NulFrom(data, from)] == raw
  {
    var end := NulFrom(data, from);
    if 0 !in raw && Stands(data, from, raw + [0]) {
      var whole := data[from..from + |raw| + 1];
      assert whole == raw + [0];
      assert data[from + |raw|] == whole[|raw|];
      forall k | from <= k < from + |raw| ensures data[k] != 0 {
        assert data[k] == whole[k - from] == raw[k - from];
        assert raw[k - from] in raw;
      }
      assert end == from + |raw|;
      assert data[from..end] == whole[..|raw|];
    }
    if end < |data| && data[from..end] == raw {
      assert data[from..from + |raw| + 1] == raw + [0];
      forall i | 0 <= i < |raw| ensures raw[i] != 0 {
        assert raw[i] == data[from..end][i] == data[from + i];
      }
    }
  }

  lemma StandsInside(data: Bytes, end: nat, at: nat, bytes: Bytes)
    requires at + |bytes| <= end <= |data|
    ensures Stands(data[..end], at, bytes) <==> Stands(data, at, bytes)
  {
    assert data[..end][at..at + |bytes|] == data[at..at + |bytes|];
  }

  lemma LibraryResolves(e: Endian, data: Bytes, c: Command, utf8: Bytes -> string, offset: nat, end: nat)
    requires Inside(c, data) && c.kind in DYLIB_COMMANDS && 24 <= c.size && U32At(e, data, c.start + 8) == offset
    requires 24 <= offset < c.size && end == NulFrom(data[..c.start + c.size], c.start + offset) < c.start + c.size
    ensures DylibOf(e, data, c, utf8)
         == if utf8(data[c.start + offset..end]) == "" then None else Some(utf8(data[c.start + offset..end]))
  {
  }

  lemma LibraryIsRead(e: Endian, data: Bytes, c: Command, utf8: Bytes -> string, offset: nat, raw: Bytes)
    requires Inside(c, data) && LibraryStands(e, data, c, offset, raw) && utf8(raw) != ""
    ensures DylibOf(e, data, c, utf8) == Some(utf8(raw))
  {
    NumberStands(e, data, c.start + 8, offset);
    var nul := NameEnds(data, c.start + c.size, c.start + offset, raw);
    LibraryResolves(e, data, c, utf8, offset, nul);
  }

  lemma NameEnds(data: Bytes, end: nat, from: nat, raw: Bytes) returns (nul: nat)
    requires from + |raw| + 1 <= end <= |data| && 0 !in raw && Stands(data, from, raw + [0])
    ensures nul == NulFrom(data[..end], from) < end && data[from..nul] == raw
  {
    var command := data[..end];
    StandsInside(data, end, from, raw + [0]);
    NulAfter(command, from, raw);
    nul := NulFrom(command, from);
    assert command[from..nul] == data[from..nul];
  }

  lemma LibraryIsWritten(e: Endian, data: Bytes, c: Command, utf8: Bytes -> string) returns (offset: nat, raw: Bytes)
    requires Inside(c, data) && DylibOf(e, data, c, utf8).Some?
    ensures LibraryStands(e, data, c, offset, raw) && DylibOf(e, data, c, utf8) == Some(utf8(raw)) && utf8(raw) != ""
  {
    offset := U32At(e, data, c.start + 8);
    NumEncodesBack(e, data, c.start + 8);
    NumberStands(e, data, c.start + 8, offset);
    var nul := NulFrom(data[..c.start + c.size], c.start + offset);
    raw := data[c.start + offset..nul];
    NameFound(data, c.start + c.size, c.start + offset, raw, nul);
  }

  lemma NameFound(data: Bytes, end: nat, from: nat, raw: Bytes, nul: nat)
    requires from <= end <= |data| && nul == NulFrom(data[..end], from) < end && raw == data[from..nul]
    ensures 0 !in raw && Stands(data, from, raw + [0])
  {
    var command := data[..end];
    assert command[from..nul] == raw;
    NulAfter(command, from, raw);
    StandsInside(data, end, from, raw + [0]);
  }

  /** A library is named exactly if its name is written in a library command and is not empty. */
  lemma LibraryReadsBack(e: Endian, data: Bytes, c: Command, utf8: Bytes -> string, name: string)
    requires Inside(c, data)
    ensures DylibOf(e, data, c, utf8) == Some(name) <==>
            name != "" && exists offset, raw :: LibraryStands(e, data, c, offset, raw) && utf8(raw) == name
  {
    if DylibOf(e, data, c, utf8) == Some(name) {
      var offset, raw := LibraryIsWritten(e, data, c, utf8);
    }
    forall offset, raw | LibraryStands(e, data, c, offset, raw) && utf8(raw) == name && name != ""
      ensures DylibOf(e, data, c, utf8) == Some(name)
    {
      LibraryIsRead(e, data, c, utf8, offset, raw);
    }
  }

  // ----- symbols -----

  /** Four words behind the head of the command: where the symbols and the strings are, and how many. */
  lemma SymtabReadsBack(e: Endian, data: Bytes, c: Command, t: Symtab)
    requires Inside(c, data)
    ensures SymtabOf(e, data, c) == Some(t) <==>
            && c.kind == 2 && 24 <= c.size
            && t.symbolOffset < U32 && Stands(data, c.start + 8, Enc(e, t.symbolOffset, 4))
            && t.symbolCount < U32 && Stands(data, c.start + 12, Enc(e, t.symbolCount, 4))
            && t.stringOffset < U32 && Stands(data, c.start + 16, Enc(e, t.stringOffset, 4))
            && t.stringSize < U32 && Stands(data, c.start + 20, Enc(e, t.stringSize, 4))
  {
    if c.kind == 2 && 24 <= c.size {
      WordStands(e, data, c.start + 8, t.symbolOffset);
      WordStands(e, data, c.start + 12, t.symbolCount);
      WordStands(e, data, c.start + 16, t.stringOffset);
      WordStands(e, data, c.start + 20, t.stringSize);
    }
  }

  lemma WordStands(e: Endian, data: Bytes, p: nat, n: nat)
    requires p + 4 <= |data|
    ensures n < U32 && Stands(data, p, Enc(e, n, 4)) <==> U32At(e, data, p) == n
  {
    NumEncodesBack(e, data, p);
    if n < U32 { NumberStands(e, data, p, n); }
  }

  /** A symbol of sixteen bytes begins with where its name is in the string table. */
  ghost predicate SymbolStands(e: Endian, data: Bytes, t: Symtab, i: nat, at: nat, raw: Bytes) {
    && 0 < at < U32 && Stands(data, t.symbolOffset + 16 * i, Enc(e, at, 4))
    && at + |raw| + 1 <= t.stringSize && |raw| <= 4096 && 0 !in raw
    && Stands(data, t.stringOffset + at, raw + [0])
  }

  lemma StandsLater(data: Bytes, from: nat, to: nat, at: nat, bytes: Bytes)
    requires from <= to <= |data| && from + at + |bytes| <= to
    ensures Stands(data[from..to], at, bytes) <==> Stands(data, from + at, bytes)
  {
    var part, here, there := data[from..to], data[from..to][at..at + |bytes|], data[from + at..from + at + |bytes|];
    forall i | 0 <= i < |bytes| ensures here[i] == there[i] {
      assert here[i] == part[at + i] == data[from + at + i];
    }
    assert here == there;
  }

  lemma SymbolResolves(e: Endian, data: Bytes, t: Symtab, utf8: Bytes -> string, i: nat, at: nat, strings: Bytes,
                       end: nat)
    requires SymtabComplaint(data, t) == None && i < t.symbolCount
    requires strings == data[t.stringOffset..t.stringOffset + t.stringSize]
    requires U32At(e, data, t.symbolOffset + 16 * i) == at && 0 < at < |strings|
    requires end == NulFrom(strings, at) < |strings| && end - at <= 4096 && utf8(strings[at..end]) != ""
    ensures SymbolAt(e, data, t, utf8, i) == Some(utf8(strings[at..end]))
  {
  }

  lemma SymbolIsRead(e: Endian, data: Bytes, t: Symtab, utf8: Bytes -> string, i: nat, at: nat, raw: Bytes)
    requires SymtabComplaint(data, t) == None && i < t.symbolCount
    requires SymbolStands(e, data, t, i, at, raw) && utf8(raw) != ""
    ensures SymbolAt(e, data, t, utf8, i) == Some(utf8(raw))
  {
    var strings := data[t.stringOffset..t.stringOffset + t.stringSize];
    var nul := SymbolSays(e, data, t, i, at, raw, strings);
    SymbolResolves(e, data, t, utf8, i, at, strings, nul);
  }

  lemma SymbolSays(e: Endian, data: Bytes, t: Symtab, i: nat, at: nat, raw: Bytes, strings: Bytes) returns (nul: nat)
    requires SymtabComplaint(data, t) == None && i < t.symbolCount && SymbolStands(e, data, t, i, at, raw)
    requires strings == data[t.stringOffset..t.stringOffset + t.stringSize]
    ensures U32At(e, data, t.symbolOffset + 16 * i) == at && 0 < at < |strings|
    ensures nul == NulFrom(strings, at) < |strings| && nul - at <= 4096 && strings[at..nul] == raw
  {
    NumberStands(e, data, t.symbolOffset + 16 * i, at);
    nul := SymbolNameEnds(data, t.stringOffset, t.stringOffset + t.stringSize, at, raw);
  }

  lemma SymbolNameEnds(data: Bytes, from: nat, to: nat, at: nat, raw: Bytes) returns (nul: nat)
    requires from <= to <= |data| && from + at + |raw| + 1 <= to && 0 !in raw && Stands(data, from + at, raw + [0])
    ensures nul == NulFrom(data[from..to], at) < to - from && nul == at + |raw| && data[from..to][at..nul] == raw
  {
    var strings := data[from..to];
    StandsLater(data, from, to, at, raw + [0]);
    NulAfter(strings, at, raw);
    nul := NulFrom(strings, at);
    assert |strings[at..nul]| == nul - at;
  }

  lemma SymbolIsWritten(e: Endian, data: Bytes, t: Symtab, utf8: Bytes -> string, i: nat)
    returns (at: nat, raw: Bytes)
    requires SymtabComplaint(data, t) == None && i < t.symbolCount && SymbolAt(e, data, t, utf8, i).Some?
    ensures SymbolStands(e, data, t, i, at, raw) && SymbolAt(e, data, t, utf8, i) == Some(utf8(raw)) && utf8(raw) != ""
  {
    var strings := data[t.stringOffset..t.stringOffset + t.stringSize];
    at := U32At(e, data, t.symbolOffset + 16 * i);
    raw := strings[at..NulFrom(strings, at)];
    WordStands(e, data, t.symbolOffset + 16 * i, at);
    NulAfter(strings, at, raw);
    StandsLater(data, t.stringOffset, t.stringOffset + t.stringSize, at, raw + [0]);
  }

  /** A symbol has a name exactly if the name is written for it in the string table and is not empty. */
  lemma SymbolReadsBack(e: Endian, data: Bytes, t: Symtab, utf8: Bytes -> string, i: nat, name: string)
    requires SymtabComplaint(data, t) == None && i < t.symbolCount
    ensures SymbolAt(e, data, t, utf8, i) == Some(name) <==>
            name != "" && exists at, raw :: SymbolStands(e, data, t, i, at, raw) && utf8(raw) == name
  {
    if SymbolAt(e, data, t, utf8, i) == Some(name) {
      var at, raw := SymbolIsWritten(e, data, t, utf8, i);
    }
    forall at, raw | SymbolStands(e, data, t, i, at, raw) && utf8(raw) == name && name != ""
      ensures SymbolAt(e, data, t, utf8, i) == Some(name)
    {
      SymbolIsRead(e, data, t, utf8, i, at, raw);
    }
  }

  // ----- Swift metadata -----

  /**
   From the bytes to the pair: in a file whose conformances were parsed, a conformance written at an entry of a
   section that an accepted command declares is listed with the name of its type and that of its protocol.
   */
  lemma WrittenConformanceIsListed(e: Endian, data: Bytes, start: Image, before: Status, names: seq<string>,
                                   ascii: Bytes -> string, utf8: Bytes -> string, sections: seq<Section>,
                                   dylibs: seq<string>, symbols: seq<string>, status: Status, limited: bool,
                                   strict: Strict, strictAscii: Strict, was: Swift, now: Swift, c: Command,
                                   s: Section, p: nat, w: Conformance, typeName: string, protocolName: string)
    requires |data| >= 32 && RegionFits(e, data)
    requires Reflects(e, data, start, before, names, ascii, utf8)(sections, dylibs, symbols, status, limited)
    requires SwiftRead(e, data, sections, strict, strictAscii)(was, now) && now.conformanceStatus == Parsed
    requires c in Commands(e, data).commands && Inside(c, data)
    requires s in SectionsOf(e, data, c, ascii) && s.name == "__swift5_proto" && p in EntriesOf(s)
    requires ConformanceWritten(e, data, p, strict, w, typeName, protocolName)
    ensures (typeName, protocolName) in now.conformances
  {
    DeclaredConformancesAreListed(e, data, start, before, names, ascii, utf8, sections, dylibs, symbols, status,
                                  limited, strict, strictAscii, was, now, c, s, p);
    ConformanceIsRead(e, data, p, strict, w, typeName, protocolName);
  }
}
