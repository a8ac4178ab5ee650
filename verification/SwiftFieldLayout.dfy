/**
 Swift field descriptors and field records as they are written, and how what is written gets into the lists.
 */
module SwiftFieldLayout {
  import opened Wrappers
  import opened LittleEndian
  import opened MachO
  import opened SwiftMetadata
  import opened SwiftFields
  import opened SwiftInventory
  import opened SwiftLayout

  // ----- one record -----

  /** A record as it is written: three flags and whatever else the flags hold, the name, and the type if there is one.
   */
  datatype RawRecord = RawRecord(isIndirectCase: bool, isVar: bool, isArtificial: bool, more: nat, name: int,
                                 rawName: Bytes, type_: RawType)

  datatype RawType = NoType | TypeText(at: int, raw: Bytes)

  function Bit(b: bool, weight: nat): nat { if b then weight else 0 }

  function FlagsOf(w: RawRecord): nat {
    Bit(w.isIndirectCase, 1) + Bit(w.isVar, 2) + Bit(w.isArtificial, 4) + 8 * w.more
  }

  /** Textual mangled names begin with $s, $S, $e or _T, and have visible characters only. */
  ghost predicate Mangles(ascii: Strict, raw: Bytes, mangled: string) {
    && |raw| >= 2 && (raw[..2] == [0x24, 0x73] || raw[..2] == [0x24, 0x53] || raw[..2] == [0x24, 0x65]
                      || raw[..2] == [0x5F, 0x54])
    && ascii(raw) == Some(mangled) && forall i :: 0 <= i < |mangled| ==> '!' <= mangled[i] <= '~'
  }

  /** The second word of a record leads to its type, or is zero. */
  ghost predicate TypeWritten(e: Endian, data: Bytes, r: nat, ascii: Strict, w: RawType, mangled: Option<string>) {
    match w
    case NoType => Stands(data, r + 4, Enc(e, 0, 4)) && mangled == None
    case TypeText(at, raw) =>
      && at != r + 4 && Points(e, data, r + 4, at) && TextStands(data, at, raw)
      && mangled.Some? && Mangles(ascii, raw, mangled.value)
  }

  /** Twelve bytes: the flags, a pointer to the type, a pointer to the name. */
  ghost predicate RecordWritten(e: Endian, data: Bytes, r: nat, strict: Strict, ascii: Strict, w: RawRecord,
                                name: string, mangled: Option<string>) {
    && r + 12 <= |data| && FlagsOf(w) < U32 && Stands(data, r, Enc(e, FlagsOf(w), 4))
    && TypeWritten(e, data, r, ascii, w.type_, mangled)
    && w.name != r + 8 && Points(e, data, r + 8, w.name) && TextStands(data, w.name, w.rawName)
    && Names(strict, w.rawName, name) && name != ""
  }

  function TypeFound(mangled: Option<string>): Resolved<string> {
    match mangled
    case None => Other
    case Some(m) => Found(m)
  }

  lemma OffsetIsZero(e: Endian, data: Bytes, p: nat)
    requires p + 4 <= |data|
    ensures I32At(e, data, p) == 0 <==> Target(e, data, p) == p
    ensures I32At(e, data, p) == 0 <==> Stands(data, p, Enc(e, 0, 4))
  {
    NumberStands(e, data, p, 0);
    NumEncodesBack(e, data, p);
  }

  lemma TypeTextResolves(e: Endian, data: Bytes, r: nat, ascii: Strict, at: int, raw: Bytes, mangled: string)
    requires r + 12 <= |data| && at != r + 4 && Target(e, data, r + 4) == at && CStringAt(data, at) == Some(raw)
    ensures ResolveMangled(e, data, r, ascii) == Found(mangled) <==> Mangles(ascii, raw, mangled)
  {
    OffsetIsZero(e, data, r + 4);
  }

  lemma TypeReadsBackAs(e: Endian, data: Bytes, r: nat, ascii: Strict, w: RawType, mangled: Option<string>)
    requires r + 12 <= |data| && TypeWritten(e, data, r, ascii, w, mangled)
    ensures ResolveMangled(e, data, r, ascii) == TypeFound(mangled)
  {
    OffsetIsZero(e, data, r + 4);
    if w.TypeText? {
      PointsExactly(e, data, r + 4, w.at);
      TextExactly(data, w.at, w.raw);
      TypeTextResolves(e, data, r, ascii, w.at, w.raw, mangled.value);
    }
  }

  lemma TypeIsWrittenAs(e: Endian, data: Bytes, r: nat, ascii: Strict, mangled: Option<string>) returns (w: RawType)
    requires r + 12 <= |data| && ResolveMangled(e, data, r, ascii) == TypeFound(mangled)
    ensures TypeWritten(e, data, r, ascii, w, mangled)
  {
    OffsetIsZero(e, data, r + 4);
    if mangled == None {
      w := NoType;
    } else {
      var at := Target(e, data, r + 4);
      var raw := CStringAt(data, at).value;
      w := TypeText(at, raw);
      PointsExactly(e, data, r + 4, at);
      TextExactly(data, at, raw);
      TypeTextResolves(e, data, r, ascii, at, raw, mangled.value);
    }
  }

  lemma FlagBits(w: RawRecord)
    ensures FlagsOf(w) % 2 == 1 <==> w.isIndirectCase
    ensures FlagsOf(w) / 2 % 2 == 1 <==> w.isVar
    ensures FlagsOf(w) / 4 % 2 == 1 <==> w.isArtificial
  {
    FromBits(FlagsOf(w), Bit(w.isIndirectCase, 1), Bit(w.isVar, 1), Bit(w.isArtificial, 1), w.more);
  }

  lemma FromBits(n: nat, a: nat, b: nat, c: nat, more: nat)
    requires a < 2 && b < 2 && c < 2 && n == a + 2 * b + 4 * c + 8 * more
    ensures n % 2 == a && n / 2 % 2 == b && n / 4 % 2 == c
  {
    Halved(n, b + 2 * c + 4 * more, a);
    Halved(n / 2, c + 2 * more, b);
    Halved(n / 4, more, c);
  }

  lemma Halved(n: nat, half: nat, odd: nat)
    requires odd < 2 && n == 2 * half + odd
    ensures n / 2 == half && n % 2 == odd && n / 4 == half / 2
  {
  }

  lemma BitsAreFlags(flags: nat, w: RawRecord)
    requires w.isIndirectCase == (flags % 2 == 1) && w.isVar == (flags / 2 % 2 == 1)
    requires w.isArtificial == (flags / 4 % 2 == 1) && w.more == flags / 8
    ensures FlagsOf(w) == flags
  {
    InBits(flags, flags / 2, flags / 4, flags / 8);
  }

  lemma InBits(n: nat, half: nat, quarter: nat, eighth: nat)
    requires half == n / 2 && quarter == n / 4 && eighth == n / 8
    ensures n == n % 2 + 2 * (half % 2) + 4 * (quarter % 2) + 8 * eighth
  {
    assert n == 2 * half + n % 2;
    assert quarter == half / 2 && half == 2 * quarter + half % 2;
    assert eighth == quarter / 2 && quarter == 2 * eighth + quarter % 2;
  }

  lemma RecordResolvesTo(e: Endian, data: Bytes, r: nat, strict: Strict, ascii: Strict, flags: nat, at: int,
                         raw: Bytes, name: string)
    requires r + 12 <= |data| && U32At(e, data, r) == flags && at != r + 8 && Target(e, data, r + 8) == at
    requires CStringAt(data, at) == Some(raw) && Names(strict, raw, name) && name != ""
    ensures ResolveRecord(e, data, r, strict, ascii)
         == Found(Record(name, flags % 2 == 1, flags / 2 % 2 == 1, flags / 4 % 2 == 1,
                         ResolveMangled(e, data, r, ascii)))
  {
    OffsetIsZero(e, data, r + 8);
  }

  lemma RecordIsRead(e: Endian, data: Bytes, r: nat, strict: Strict, ascii: Strict, w: RawRecord, name: string,
                     mangled: Option<string>)
    requires RecordWritten(e, data, r, strict, ascii, w, name, mangled)
    ensures ResolveRecord(e, data, r, strict, ascii)
         == Found(Record(name, w.isIndirectCase, w.isVar, w.isArtificial, TypeFound(mangled)))
  {
    NumberStands(e, data, r, FlagsOf(w));
    PointsExactly(e, data, r + 8, w.name);
    TextExactly(data, w.name, w.rawName);
    RecordResolvesTo(e, data, r, strict, ascii, FlagsOf(w), w.name, w.rawName, name);
    FlagBits(w);
    TypeReadsBackAs(e, data, r, ascii, w.type_, mangled);
  }

  lemma RecordIsWritten(e: Endian, data: Bytes, r: nat, strict: Strict, ascii: Strict, x: Record,
                        mangled: Option<string>)
    returns (w: RawRecord)
    requires r + 12 <= |data| && ResolveRecord(e, data, r, strict, ascii) == Found(x) && x.mangled == TypeFound(mangled)
    ensures RecordWritten(e, data, r, strict, ascii, w, x.name, mangled)
    ensures w.isIndirectCase == x.isIndirectCase && w.isVar == x.isVar && w.isArtificial == x.isArtificial
  {
    var flags, at := U32At(e, data, r), Target(e, data, r + 8);
    var raw := CStringAt(data, at).value;
    OffsetIsZero(e, data, r + 8);
    RecordResolvesTo(e, data, r, strict, ascii, flags, at, raw, x.name);
    var type_ := TypeIsWrittenAs(e, data, r, ascii, mangled);
    w := RawRecord(x.isIndirectCase, x.isVar, x.isArtificial, flags / 8, at, raw, type_);
    BitsAreFlags(flags, w);
    NumEncodesBack(e, data, r);
    NumberStands(e, data, r, flags);
    PointsExactly(e, data, r + 8, at);
    TextExactly(data, at, raw);
  }

  /** A record is read with its name, flags and type exactly if it is so written. */
  lemma RecordReadsBack(e: Endian, data: Bytes, r: nat, strict: Strict, ascii: Strict, name: string,
                        isIndirectCase: bool, isVar: bool, isArtificial: bool, mangled: Option<string>)
    requires r + 12 <= |data|
    ensures
      var x := Record(name, isIndirectCase, isVar, isArtificial, TypeFound(mangled));
      ResolveRecord(e, data, r, strict, ascii) == Found(x) <==>
      exists w: RawRecord ::
        && w.isIndirectCase == isIndirectCase && w.isVar == isVar && w.isArtificial == isArtificial
        && RecordWritten(e, data, r, strict, ascii, w, name, mangled)
  {
    var x := Record(name, isIndirectCase, isVar, isArtificial, TypeFound(mangled));
    if ResolveRecord(e, data, r, strict, ascii) == Found(x) {
      var w := RecordIsWritten(e, data, r, strict, ascii, x, mangled);
    }
    forall w: RawRecord | && w.isIndirectCase == isIndirectCase && w.isVar == isVar && w.isArtificial == isArtificial
                          && RecordWritten(e, data, r, strict, ascii, w, name, mangled)
      ensures ResolveRecord(e, data, r, strict, ascii) == Found(x)
    {
      RecordIsRead(e, data, r, strict, ascii, w, name, mangled);
    }
  }

  // ----- the records of a type -----

  lemma ShortStands(e: Endian, data: Bytes, p: int, n: nat)
    requires 0 <= p && p + 2 <= |data| && n < 65536
    ensures Stands(data, p, Enc(e, n, 2)) <==> Num(e, data, p, 2) == n
  {
    assert Bound(2) == 65536;
    if Stands(data, p, Enc(e, n, 2)) {
      if e.Little? { ReadsBack(data, p, n, 2); } else { BigReadsBack(data, p, n, 2); }
    }
    if e.Little? { EncodesBack(data, p, 2); } else { BigEncodesBack(data, p, 2); }
  }

  /** A descriptor of sixteen bytes fits into the field-metadata section from the given place on. */
  predicate Holds16(data: Bytes, s: Section, fd: int) {
    && s.name == "__swift5_fieldmd" && s.offset + s.size <= |data|
    && s.offset <= fd && fd + 16 <= s.offset + s.size
  }

  /** A field descriptor: its kind, the size of a record, the number of records; the records follow in the section. */
  datatype RawFields = RawFields(at: int, section: nat, kind: nat, count: nat)

  ghost predicate FieldsStand(e: Endian, data: Bytes, sections: seq<Section>, d: nat, w: RawFields) {
    && d + 20 <= |data| && w.at != d + 16 && Points(e, data, d + 16, w.at)
    && w.section < |sections| && Holds16(data, sections[w.section], w.at)
    && (forall j :: 0 <= j < w.section ==> !Holds16(data, sections[j], w.at))
    && w.kind <= 3 && Stands(data, w.at + 8, Enc(e, w.kind, 2)) && Stands(data, w.at + 10, Enc(e, 12, 2))
    && w.count <= 1000 && Stands(data, w.at + 12, Enc(e, w.count, 4))
    && w.at + 16 + 12 * w.count <= sections[w.section].offset + sections[w.section].size
  }

  lemma {:induction false} FirstSection(data: Bytes, sections: seq<Section>, fd: int, k: nat)
    requires k < |sections| && Holds16(data, sections[k], fd)
    requires forall j :: 0 <= j < k ==> !Holds16(data, sections[j], fd)
    ensures FieldSection(data, sections, fd) == Some(sections[k])
    decreases k
  {
    if k > 0 {
      assert !Holds16(data, sections[0], fd);
      FirstSection(data, sections[1..], fd, k - 1);
    }
  }

  lemma {:induction false} SectionIsFirst(data: Bytes, sections: seq<Section>, fd: int) returns (k: nat)
    requires FieldSection(data, sections, fd).Some?
    ensures k < |sections| && Holds16(data, sections[k], fd) && FieldSection(data, sections, fd) == Some(sections[k])
    ensures forall j :: 0 <= j < k ==> !Holds16(data, sections[j], fd)
  {
    if FieldSectionFits(data, sections[0], fd) {
      k := 0;
    } else {
      var n := SectionIsFirst(data, sections[1..], fd);
      k := n + 1;
      forall j | 0 <= j < k ensures !Holds16(data, sections[j], fd) {
        if j > 0 { assert sections[j] == sections[1..][j - 1]; }
      }
    }
  }

  lemma FieldsResolve(e: Endian, data: Bytes, sections: seq<Section>, d: nat, at: nat, s: Section, kind: nat,
                      count: nat)
    requires d + 20 <= |data| && I32At(e, data, d + 16) != 0 && Target(e, data, d + 16) == at
    requires FieldSection(data, sections, at) == Some(s) && at + 16 <= |data|
    requires Num(e, data, at + 8, 2) == kind <= 3 && Num(e, data, at + 10, 2) == 12
    requires U32At(e, data, at + 12) == count <= 1000 && at + 16 + 12 * count <= s.offset + s.size
    ensures RecordsAt(e, data, sections, d) == Found((at + 16, count))
  {
  }

  lemma FieldsSay(e: Endian, data: Bytes, sections: seq<Section>, d: nat, w: RawFields, at: nat, s: Section)
    requires FieldsStand(e, data, sections, d, w) && at == w.at && s == sections[w.section]
    ensures I32At(e, data, d + 16) != 0 && Target(e, data, d + 16) == at
    ensures FieldSection(data, sections, at) == Some(s) && at + 16 <= |data|
    ensures Num(e, data, at + 8, 2) == w.kind <= 3 && Num(e, data, at + 10, 2) == 12
    ensures U32At(e, data, at + 12) == w.count <= 1000 && at + 16 + 12 * w.count <= s.offset + s.size
  {
    FieldsPoint(e, data, d, at);
    FirstSection(data, sections, at, w.section);
    FieldNumbers(e, data, at, w.kind, w.count);
  }

  lemma FieldsPoint(e: Endian, data: Bytes, d: nat, at: nat)
    requires d + 20 <= |data| && at != d + 16 && Points(e, data, d + 16, at)
    ensures I32At(e, data, d + 16) != 0 && Target(e, data, d + 16) == at
  {
    PointsExactly(e, data, d + 16, at);
    OffsetIsZero(e, data, d + 16);
  }

  lemma FieldNumbers(e: Endian, data: Bytes, at: nat, kind: nat, count: nat)
    requires at + 16 <= |data| && kind <= 3 && count <= 1000
    requires Stands(data, at + 8, Enc(e, kind, 2)) && Stands(data, at + 10, Enc(e, 12, 2))
    requires Stands(data, at + 12, Enc(e, count, 4))
    ensures Num(e, data, at + 8, 2) == kind && Num(e, data, at + 10, 2) == 12 && U32At(e, data, at + 12) == count
  {
    ShortStands(e, data, at + 8, kind);
    ShortStands(e, data, at + 10, 12);
    NumberStands(e, data, at + 12, count);
  }

  lemma FieldsAreRead(e: Endian, data: Bytes, sections: seq<Section>, d: nat, w: RawFields)
    requires FieldsStand(e, data, sections, d, w)
    ensures RecordsAt(e, data, sections, d) == Found((w.at + 16, w.count))
  {
    var at: nat, s := w.at, sections[w.section];
    FieldsSay(e, data, sections, d, w, at, s);
    FieldsResolve(e, data, sections, d, at, s, w.kind, w.count);
  }

  lemma FieldsFound(e: Endian, data: Bytes, sections: seq<Section>, d: nat, at: int, start: nat, count: nat)
    returns (s: Section)
    requires d + 20 <= |data| && RecordsAt(e, data, sections, d) == Found((start, count))
    requires at == Target(e, data, d + 16)
    ensures I32At(e, data, d + 16) != 0 && FieldSection(data, sections, at) == Some(s)
    ensures Holds16(data, s, at) && start == at + 16 && start + 12 * count <= s.offset + s.size && count <= 1000
    ensures Num(e, data, at + 8, 2) <= 3 && Num(e, data, at + 10, 2) == 12 && U32At(e, data, at + 12) == count
  {
    s := FieldSection(data, sections, at).value;
  }

  lemma FieldsAreWritten(e: Endian, data: Bytes, sections: seq<Section>, d: nat, start: nat, count: nat)
    returns (w: RawFields)
    requires d + 20 <= |data| && RecordsAt(e, data, sections, d) == Found((start, count))
    ensures FieldsStand(e, data, sections, d, w) && start == w.at + 16 && count == w.count
  {
    var at := Target(e, data, d + 16);
    var s := FieldsFound(e, data, sections, d, at, start, count);
    var k := SectionIsFirst(data, sections, at);
    w := RawFields(at, k, Num(e, data, at + 8, 2), count);
    PointsExactly(e, data, d + 16, at);
    OffsetIsZero(e, data, d + 16);
    ShortStands(e, data, at + 8, w.kind);
    ShortStands(e, data, at + 10, 12);
    NumberStands(e, data, at + 12, count);
  }

  /** The records of a type are found exactly where a field descriptor is written that says so. */
  lemma FieldsReadBack(e: Endian, data: Bytes, sections: seq<Section>, d: nat, start: nat, count: nat)
    requires d + 20 <= |data|
    ensures RecordsAt(e, data, sections, d) == Found((start, count)) <==>
            exists w: RawFields :: FieldsStand(e, data, sections, d, w) && start == w.at + 16 && count == w.count
  {
    if RecordsAt(e, data, sections, d) == Found((start, count)) {
      var w := FieldsAreWritten(e, data, sections, d, start, count);
    }
    forall w: RawFields | FieldsStand(e, data, sections, d, w) && start == w.at + 16 && count == w.count
      ensures RecordsAt(e, data, sections, d) == Found((start, count))
    {
      FieldsAreRead(e, data, sections, d, w);
    }
  }

  // ----- what is written is listed -----

  /** Up to ten thousand entries of four bytes each are examined, in every section of the file that is not longer. */
  lemma EntryIsExamined(data: Bytes, sections: seq<Section>, name: string, s: Section, n: nat, i: nat)
    requires s in sections && s.name == name && s.size == 4 * n && n <= 10000 && s.offset + s.size <= |data|
    requires i < n && |Entries(data, SectionsNamed(sections, name))| <= 10000
    ensures s.offset + 4 * i in Examined(Entries(data, SectionsNamed(sections, name)))
  {
    assert EntriesOf(s)[i] == s.offset + 4 * i;
    SectionsHaveEntries(data, SectionsNamed(sections, name), s, s.offset + 4 * i);
  }

  /** The pairs listed are those listed before and those of conformances written; each of these is there if there is
   room. */
  lemma ConformancesListedExactly(e: Endian, data: Bytes, sections: seq<Section>, strict: Strict,
                                  pairs: seq<(string, string)>, status: MetadataStatus, pairs': seq<(string, string)>,
                                  status': MetadataStatus, entries: seq<nat>)
    requires ConformancesRead(e, data, sections, strict)(pairs, status, pairs', status')
    requires SectionsNamed(sections, "__swift5_proto") != []
    requires entries == Examined(Entries(data, SectionsNamed(sections, "__swift5_proto")))
    ensures pairs <= pairs'
    ensures forall x :: x in pairs' ==>
              x in pairs || exists p, c :: p in entries && ConformanceWritten(e, data, p, strict, c, x.0, x.1)
    ensures forall p, c, t, q :: p in entries && ConformanceWritten(e, data, p, strict, c, t, q) ==>
              (t, q) in pairs' || |pairs'| >= MAX_CANDIDATES
  {
    var found, resolve := SectionsNamed(sections, "__swift5_proto"), ConformancesOf(e, data, strict);
    var trouble, full :| PairsInventoried(data, found, resolve, pairs)(pairs', status', trouble, full);
    assert Inventoried(data, found, resolve, pairs)(pairs', trouble);
    forall x | x in pairs' && x !in pairs
      ensures exists p, c :: p in entries && ConformanceWritten(e, data, p, strict, c, x.0, x.1)
    {
      var p :| p in entries && resolve(p) == Found(x);
      assert x == (x.0, x.1);
      var c := ConformanceIsWritten(e, data, p, strict, x.0, x.1);
    }
    forall p, c, t, q | p in entries && ConformanceWritten(e, data, p, strict, c, t, q)
      ensures (t, q) in pairs' || |pairs'| >= MAX_CANDIDATES
    {
      ConformanceIsRead(e, data, p, strict, c, t, q);
      assert resolve(p) == Found((t, q));
    }
  }

  /** The same for the names of protocols. */
  lemma ProtocolsListedExactly(e: Endian, data: Bytes, sections: seq<Section>, strict: Strict, names: seq<string>,
                               status: MetadataStatus, names': seq<string>, status': MetadataStatus, entries: seq<nat>)
    requires ProtocolsRead(e, data, sections, strict)(names, status, names', status')
    requires SectionsNamed(sections, "__swift5_protos") != []
    requires entries == Examined(Entries(data, SectionsNamed(sections, "__swift5_protos")))
    ensures names <= names'
    ensures forall x :: x in names' ==>
              x in names || exists p, d :: p in entries && ProtocolStands(e, data, p, d) && Names(strict, d.raw, x)
    ensures forall p, d, x :: p in entries && ProtocolStands(e, data, p, d) && Names(strict, d.raw, x) && x != "" ==>
              x in names' || |names'| >= MAX_CANDIDATES
  {
    var found, resolve := SectionsNamed(sections, "__swift5_protos"), ProtocolsOf(e, data, strict);
    assert Inventoried(data, found, resolve, names)(names', status' == PartlyParsed);
    forall x | x in names' && x !in names
      ensures exists p, d :: p in entries && ProtocolStands(e, data, p, d) && Names(strict, d.raw, x)
    {
      var p :| p in entries && resolve(p) == Found(x);
      var d := ProtocolIsWritten(e, data, p, strict, x);
    }
    forall p, d, x | p in entries && ProtocolStands(e, data, p, d) && Names(strict, d.raw, x) && x != ""
      ensures x in names' || |names'| >= MAX_CANDIDATES
    {
      ProtocolIsRead(e, data, p, strict, d, x);
      assert resolve(p) == Found(x);
    }
  }

  /** And for the names of types, whatever is wrong with their fields. */
  lemma TypesListedExactly(e: Endian, data: Bytes, sections: seq<Section>, strict: Strict, ascii: Strict,
                           before: Types, after: Types, entries: seq<nat>)
    requires TypesRead(e, data, sections, strict, ascii)(before, after)
    requires SectionsNamed(sections, "__swift5_types") != []
    requires entries == Examined(Entries(data, SectionsNamed(sections, "__swift5_types")))
    ensures before.names <= after.names
    ensures forall x :: x in after.names ==>
              x in before.names || exists p, d :: p in entries && TypeStands(e, data, p, d) && Names(strict, d.raw, x)
    ensures forall p, d, x :: p in entries && TypeStands(e, data, p, d) && Names(strict, d.raw, x) && d.raw != [] ==>
              x in after.names || |after.names| >= MAX_CANDIDATES
  {
    var found, v := SectionsNamed(sections, "__swift5_types"), ViewOf(e, data, sections, strict, ascii);
    InventoriedParts(data, found, v, before.names, before.lists, after.names, after.lists, after.status);
    NamesAreListed(before.names, entries, v.names);
    forall x | x in after.names && x !in before.names
      ensures exists p, d :: p in entries && TypeStands(e, data, p, d) && Names(strict, d.raw, x)
    {
      var p :| p in entries && v.names(p) == Found(x);
      var d := TypeIsWritten(e, data, p, strict, x, v.types(p).value.1);
    }
    forall p, d, x | p in entries && TypeStands(e, data, p, d) && Names(strict, d.raw, x) && d.raw != []
      ensures x in after.names || |after.names| >= MAX_CANDIDATES
    {
      TypeIsRead(e, data, p, strict, d, x);
      assert v.names(p) == Found(x);
    }
  }

  /** A type at an entry, with its name and its field descriptor. */
  ghost function TypeWithFields(e: Endian, data: Bytes, sections: seq<Section>, strict: Strict):
    (nat, Descriptor, string, RawFields) -> bool
  {
    (p: nat, d: Descriptor, name: string, fields: RawFields) =>
      && TypeStands(e, data, p, d) && Names(strict, d.raw, name) && d.raw != []
      && FieldsStand(e, data, sections, d.at, fields)
  }

  ghost function RecordAsWritten(e: Endian, data: Bytes, strict: Strict, ascii: Strict):
    (nat, RawRecord, string, Option<string>) -> bool
  {
    (r: nat, w: RawRecord, name: string, mangled: Option<string>) =>
      RecordWritten(e, data, r, strict, ascii, w, name, mangled)
  }

  /** Entry p leads to type t, and from there to the record. */
  ghost function LeadsTo(p: nat, t: string, x: Record): View -> bool {
    (v: View) => exists d, start, count, i, r :: RecordSeen(v, p, t, d, start, count, i, r, x)
  }

  ghost predicate RecordSeen(v: View, p: nat, t: string, d: nat, start: nat, count: nat, i: nat, r: nat, x: Record) {
    && v.types(p) == Found((t, d)) && v.recordsAt(d) == Found((start, count))
    && i < count && r == start + 12 * i && v.records(r) == Found(x)
  }

  lemma WrittenLeads(e: Endian, data: Bytes, sections: seq<Section>, strict: Strict, ascii: Strict, v: View, p: nat,
                     d: Descriptor, t: string, fields: RawFields, i: nat, r: nat, w: RawRecord, name: string,
                     mangled: Option<string>, x: Record)
    requires v == ViewOf(e, data, sections, strict, ascii) && p + 4 <= |data|
    requires TypeWithFields(e, data, sections, strict)(p, d, t, fields)
    requires i < fields.count && r == fields.at + 16 + 12 * i
    requires RecordAsWritten(e, data, strict, ascii)(r, w, name, mangled)
    requires x == Record(name, w.isIndirectCase, w.isVar, w.isArtificial, TypeFound(mangled))
    ensures LeadsTo(p, t, x)(v)
  {
    TypeIsSeen(e, data, sections, strict, ascii, v, p, d, t, fields);
    RecordIsSeen(e, data, sections, strict, ascii, v, r, w, name, mangled, x);
    SeenLeads(v, p, t, d.at, fields.at + 16, fields.count, i, r, x);
  }

  lemma SeenLeads(v: View, p: nat, t: string, d: nat, start: nat, count: nat, i: nat, r: nat, x: Record)
    requires RecordSeen(v, p, t, d, start, count, i, r, x)
    ensures LeadsTo(p, t, x)(v)
  {
  }

  /** What a followed entry leads to is listed. */
  lemma FollowedIsListed(v: View, p: nat, types: Types, t: string, x: Record)
    requires TypeFollowed(v, p, types) && LeadsTo(p, t, x)(v)
    ensures FieldMetadata(t, x.name, x.isIndirectCase, x.isVar, x.isArtificial) in types.lists.metadata
    ensures x.mangled.Found? ==> FieldType(t, x.name, x.mangled.value) in types.lists.types
  {
    var d, start, count, i, r :| RecordSeen(v, p, t, d, start, count, i, r, x);
    var g := Group(t, start, count);
    assert GroupAt(v, p) == [g];
    assert g in GroupAt(v, p);
    assert RecordListed(types.lists, t, v.records(RecordAt(g, i)));
  }

  lemma ParsedIsListed(e: Endian, data: Bytes, sections: seq<Section>, strict: Strict, ascii: Strict, before: Types,
                       after: Types, s: Section, p: nat, t: string, x: Record)
    requires TypesRead(e, data, sections, strict, ascii)(before, after) && after.status == Parsed
    requires s in sections && s.name == "__swift5_types" && p in EntriesOf(s)
    requires LeadsTo(p, t, x)(ViewOf(e, data, sections, strict, ascii))
    ensures FieldMetadata(t, x.name, x.isIndirectCase, x.isVar, x.isArtificial) in after.lists.metadata
    ensures x.mangled.Found? ==> FieldType(t, x.name, x.mangled.value) in after.lists.types
  {
    TypesParsed(e, data, sections, strict, ascii, before, after, s, p);
    FollowedIsListed(ViewOf(e, data, sections, strict, ascii), p, after, t, x);
  }

  /**
   Types that were parsed: each field record written for a type that is written at an entry has its metadata listed,
   and its type if it has one.
   */
  lemma WrittenFieldIsListed(e: Endian, data: Bytes, sections: seq<Section>, strict: Strict, ascii: Strict,
                             before: Types, after: Types, s: Section, p: nat, d: Descriptor, typeName: string,
                             fields: RawFields, i: nat, r: nat, w: RawRecord, name: string, mangled: Option<string>)
    requires TypesRead(e, data, sections, strict, ascii)(before, after) && after.status == Parsed
    requires s in sections && s.name == "__swift5_types" && p in EntriesOf(s) && p + 4 <= |data|
    requires TypeWithFields(e, data, sections, strict)(p, d, typeName, fields)
    requires i < fields.count && r == fields.at + 16 + 12 * i
    requires RecordAsWritten(e, data, strict, ascii)(r, w, name, mangled)
    ensures FieldMetadata(typeName, name, w.isIndirectCase, w.isVar, w.isArtificial) in after.lists.metadata
    ensures mangled.Some? ==> FieldType(typeName, name, mangled.value) in after.lists.types
  {
    var v := ViewOf(e, data, sections, strict, ascii);
    var x := Record(name, w.isIndirectCase, w.isVar, w.isArtificial, TypeFound(mangled));
    WrittenLeads(e, data, sections, strict, ascii, v, p, d, typeName, fields, i, r, w, name, mangled, x);
    ParsedIsListed(e, data, sections, strict, ascii, before, after, s, p, typeName, x);
  }

  lemma TypeIsSeen(e: Endian, data: Bytes, sections: seq<Section>, strict: Strict, ascii: Strict, v: View, p: nat,
                   d: Descriptor, name: string, fields: RawFields)
    requires v == ViewOf(e, data, sections, strict, ascii) && p + 4 <= |data|
    requires TypeWithFields(e, data, sections, strict)(p, d, name, fields)
    ensures d.at >= 0 && v.types(p) == Found((name, d.at))
    ensures fields.at >= 0 && v.recordsAt(d.at) == Found((fields.at + 16, fields.count))
  {
    TypeIsRead(e, data, p, strict, d, name);
    FieldsAreRead(e, data, sections, d.at, fields);
  }

  lemma RecordIsSeen(e: Endian, data: Bytes, sections: seq<Section>, strict: Strict, ascii: Strict, v: View, r: nat,
                     w: RawRecord, name: string, mangled: Option<string>, x: Record)
    requires v == ViewOf(e, data, sections, strict, ascii)
    requires RecordAsWritten(e, data, strict, ascii)(r, w, name, mangled)
    requires x == Record(name, w.isIndirectCase, w.isVar, w.isArtificial, TypeFound(mangled))
    ensures v.records(r) == Found(x)
  {
    RecordIsRead(e, data, r, strict, ascii, w, name, mangled);
  }

  // ----- the names of a type together -----

  lemma {:induction false} NothingCut(groups: seq<Group>)
    requires |SeenOf(groups)| <= MAX_RECORDS
    ensures Within(groups) == groups
  {
    if groups != [] {
      var earlier, g := groups[..|groups| - 1], groups[|groups| - 1];
      assert groups == earlier + [g];
      SeenMore(earlier, g);
      NothingCut(earlier);
      WithinMore(earlier, g);
      RoomForAll(|SeenOf(earlier)|, g);
    }
  }

  lemma RoomForAll(read: nat, g: Group)
    requires read + g.count <= MAX_RECORDS
    ensures g.(count := Room(read, g.count)) == g
  {
  }

  /** A type with readable names has them listed if there is room. */
  lemma {:induction false} NamesListed(before: seq<(string, seq<string>)>, groups: seq<Group>, resolve: Records, j: nat)
    requires j < |groups| && NamesOf(groups[j], resolve) != []
    ensures var after := FieldLists(before, groups, resolve);
            (groups[j].typeName, NamesOf(groups[j], resolve)) in after || |after| >= MAX_CANDIDATES
    decreases |groups|
  {
    var n := |groups| - 1;
    if j < n {
      assert groups[..n][j] == groups[j];
      NamesListed(before, groups[..n], resolve, j);
    }
  }

  function PlaceOf(start: nat, i: nat): nat { start + 12 * i }

  ghost function NameAt(r: nat, name: string): Records -> bool {
    (resolve: Records) => resolve(r).Found? && resolve(r).value.name == name
  }

  ghost predicate NamedInOrder(g: Group, resolve: Records, names: seq<string>) {
    && g.count == |names|
    && forall i :: 0 <= i < |names| ==> NameAt(PlaceOf(g.start, i), names[i])(resolve)
  }

  lemma {:induction false} NamesInOrder(g: Group, resolve: Records, names: seq<string>)
    requires NamedInOrder(g, resolve, names)
    ensures NamesOf(g, resolve) == names
    decreases g.count
  {
    if g.count > 0 {
      var n := |names| - 1;
      var fewer, first := g.(count := n), names[..n];
      forall i | 0 <= i < n ensures NameAt(PlaceOf(fewer.start, i), first[i])(resolve) {
        assert NameAt(PlaceOf(g.start, i), names[i])(resolve);
      }
      NamesInOrder(fewer, resolve, first);
      LastName(g, resolve, names[n]);
      assert names == first + [names[n]];
    }
  }

  lemma LastName(g: Group, resolve: Records, name: string)
    requires g.count > 0 && NameAt(PlaceOf(g.start, g.count - 1), name)(resolve)
    ensures NamesOf(g, resolve) == NamesOf(g.(count := g.count - 1), resolve) + [name]
  {
  }

  /** Entry p leads to type t, whose records have these names. */
  ghost function LeadsToNames(p: nat, t: string, names: seq<string>): View -> bool {
    (v: View) => exists g: Group :: GroupAt(v, p) == [g] && g.typeName == t && NamedInOrder(g, v.records, names)
  }

  lemma NamesAfterAll(v: View, before: Lists, entries: seq<nat>, p: nat, t: string, names: seq<string>)
    requires !Missed(v, entries) && p in entries && LeadsToNames(p, t, names)(v) && names != []
    ensures var after := ListsAfter(v, before, entries).fields;
            (t, names) in after || |after| >= MAX_CANDIDATES
  {
    var g: Group :| GroupAt(v, p) == [g] && g.typeName == t && NamedInOrder(g, v.records, names);
    var j := GroupIsThere(v, entries, p);
    NothingCut(GroupsOf(v, entries));
    NamesInOrder(g, v.records, names);
    NamesListed(before.fields, GroupsOf(v, entries), v.records, j);
  }

  /** Types that were parsed: the names of the records of a type stand together, in order, if there is room. */
  lemma ParsedNamesListed(e: Endian, data: Bytes, sections: seq<Section>, strict: Strict, ascii: Strict,
                          before: Types, after: Types, s: Section, p: nat, t: string, names: seq<string>)
    requires TypesRead(e, data, sections, strict, ascii)(before, after) && after.status == Parsed
    requires s in sections && s.name == "__swift5_types" && p in EntriesOf(s) && names != []
    requires LeadsToNames(p, t, names)(ViewOf(e, data, sections, strict, ascii))
    ensures (t, names) in after.lists.fields || |after.lists.fields| >= MAX_CANDIDATES
  {
    var found, v := SectionsNamed(sections, "__swift5_types"), ViewOf(e, data, sections, strict, ascii);
    assert s in found;
    InventoriedParts(data, found, v, before.names, before.lists, after.names, after.lists, after.status);
    ParsedMeansComplete(data, found, v, before.names, before.lists, after.names, after.lists, p);
    SectionsHaveEntries(data, found, s, p);
    AllExamined(data, found, v, before);
    NamesAfterAll(v, before.lists, Entries(data, found), p, t, names);
  }

  lemma AllExamined(data: Bytes, found: seq<Section>, v: View, before: Types)
    requires StatusAfter(data, found, v, before.lists) == Parsed
    ensures Examined(Entries(data, found)) == Entries(data, found) && !Missed(v, Entries(data, found))
  {
  }

  /** Records with these names stand one after the other. */
  ghost predicate NamesWritten(e: Endian, data: Bytes, strict: Strict, ascii: Strict, start: nat,
                               records: seq<RawRecord>, names: seq<string>, types: seq<Option<string>>) {
    && |records| == |names| == |types|
    && forall i :: 0 <= i < |names| ==>
         RecordAsWritten(e, data, strict, ascii)(PlaceOf(start, i), records[i], names[i], types[i])
  }

  lemma NameIsSeen(e: Endian, data: Bytes, sections: seq<Section>, strict: Strict, ascii: Strict, v: View, r: nat,
                   w: RawRecord, name: string, mangled: Option<string>)
    requires v == ViewOf(e, data, sections, strict, ascii)
    requires RecordAsWritten(e, data, strict, ascii)(r, w, name, mangled)
    ensures NameAt(r, name)(v.records)
  {
    var x := Record(name, w.isIndirectCase, w.isVar, w.isArtificial, TypeFound(mangled));
    RecordIsSeen(e, data, sections, strict, ascii, v, r, w, name, mangled, x);
  }

  lemma NamesAreSeen(e: Endian, data: Bytes, sections: seq<Section>, strict: Strict, ascii: Strict, v: View,
                     records: seq<RawRecord>, names: seq<string>, types: seq<Option<string>>, g: Group)
    requires v == ViewOf(e, data, sections, strict, ascii)
    requires NamesWritten(e, data, strict, ascii, g.start, records, names, types) && g.count == |names|
    ensures NamedInOrder(g, v.records, names)
  {
    forall i | 0 <= i < |names| ensures NameAt(PlaceOf(g.start, i), names[i])(v.records) {
      NameIsSeen(e, data, sections, strict, ascii, v, PlaceOf(g.start, i), records[i], names[i], types[i]);
    }
  }

  lemma GroupLeads(v: View, p: nat, t: string, d: nat, start: nat, count: nat, names: seq<string>)
    requires v.types(p) == Found((t, d)) && v.recordsAt(d) == Found((start, count))
    requires NamedInOrder(Group(t, start, count), v.records, names)
    ensures LeadsToNames(p, t, names)(v)
  {
    assert GroupAt(v, p) == [Group(t, start, count)];
  }

  /** The names written for the records of a type are those an entry leads to. */
  lemma NamesLead(e: Endian, data: Bytes, sections: seq<Section>, strict: Strict, ascii: Strict, v: View, p: nat,
                  d: Descriptor, t: string, fields: RawFields, start: nat, records: seq<RawRecord>,
                  names: seq<string>, types: seq<Option<string>>)
    requires v == ViewOf(e, data, sections, strict, ascii) && p + 4 <= |data|
    requires TypeWithFields(e, data, sections, strict)(p, d, t, fields) && fields.count == |names|
    requires start == fields.at + 16 && NamesWritten(e, data, strict, ascii, start, records, names, types)
    ensures LeadsToNames(p, t, names)(v)
  {
    TypeIsSeen(e, data, sections, strict, ascii, v, p, d, t, fields);
    NamesAreSeen(e, data, sections, strict, ascii, v, records, names, types, Group(t, start, fields.count));
    GroupLeads(v, p, t, d.at, start, fields.count, names);
  }
}
