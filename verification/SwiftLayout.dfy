/**
 Swift metadata as it is written: descriptors, records and names at their places, tied together by relative pointers.
 What is so written is read back, and nothing else is.
 */
module SwiftLayout {
  import opened Wrappers
  import opened LittleEndian
  import opened MachO
  import opened SwiftMetadata
  import opened SwiftFields
  import opened SwiftInventory

  // ----- bytes at places -----

  ghost predicate Stands(data: Bytes, at: int, bytes: Bytes) {
    0 <= at && at + |bytes| <= |data| && data[at..at + |bytes|] == bytes
  }

  /** A relative pointer at p that leads to the given place: their distance, in two's complement. */
  ghost predicate Points(e: Endian, data: Bytes, p: int, to: int) {
    var distance := to - p;
    && -0x8000_0000 <= distance < 0x8000_0000
    && Stands(data, p, Enc(e, if distance < 0 then 0x1_0000_0000 + distance else distance, 4))
  }

  lemma NumberStands(e: Endian, data: Bytes, p: int, n: nat)
    requires 0 <= p && p + 4 <= |data| && n < U32
    ensures Stands(data, p, Enc(e, n, 4)) <==> U32At(e, data, p) == n
  {
    if Stands(data, p, Enc(e, n, 4)) {
      NumReadsBack(e, data, p, n);
    }
    NumEncodesBack(e, data, p);
  }

  lemma PointsExactly(e: Endian, data: Bytes, p: int, to: int)
    requires 0 <= p && p + 4 <= |data|
    ensures Points(e, data, p, to) <==> Target(e, data, p) == to
  {
    var distance := to - p;
    NumEncodesBack(e, data, p);
    if -0x8000_0000 <= distance < 0x8000_0000 {
      NumberStands(e, data, p, if distance < 0 then 0x1_0000_0000 + distance else distance);
    }
  }

  /** Fewer than 256 bytes that end with a NUL. */
  ghost predicate TextStands(data: Bytes, at: int, raw: Bytes) {
    |raw| < 256 && 0 !in raw && Stands(data, at, raw + [0])
  }

  lemma TextExactly(data: Bytes, at: int, raw: Bytes)
    ensures TextStands(data, at, raw) <==> CStringAt(data, at) == Some(raw)
  {
    var found := CStringAt(data, at);
    if TextStands(data, at, raw) {
      var whole := data[at..at + |raw| + 1];
      assert whole == raw + [0];
      assert data[at + |raw|] == whole[|raw|];
      forall k | 0 <= k < |raw| ensures data[at + k] == raw[k] != 0 {
        assert data[at + k] == whole[k] && raw[k] in raw;
      }
      assert found.Some?;
      var end := |found.value|;
      forall k | at <= k < at + end ensures data[k] != 0 {
        assert data[k] == data[at..at + end][k - at] == found.value[k - at];
      }
      assert end == |raw|;
      assert found.value == data[at..at + |raw|] == whole[..|raw|];
    }
    if found == Some(raw) {
      assert data[at..at + |raw| + 1] == raw + [0];
    }
  }

  /** A name that can be shown. */
  ghost predicate Names(strict: Strict, raw: Bytes, name: string) {
    strict(raw) == Some(name) && forall i :: 0 <= i < |name| ==> ' ' <= name[i] && name[i] != '\U{7F}'
  }

  // ----- descriptors -----

  datatype Descriptor = Descriptor(at: int, flags: nat, name: int, raw: Bytes)

  /** A context descriptor: its kind in the low five bits, and a pointer to its name at the ninth byte. */
  ghost predicate DescriptorStands(e: Endian, data: Bytes, d: Descriptor, kinds: set<nat>, size: nat) {
    && 0 <= d.at && d.at + size <= |data| && d.flags < U32 && d.flags % 32 in kinds
    && Stands(data, d.at, Enc(e, d.flags, 4)) && Points(e, data, d.at + 8, d.name) && TextStands(data, d.name, d.raw)
  }

  ghost function DescriptorAt(e: Endian, data: Bytes, at: int): Descriptor
    requires 0 <= at && at + 12 <= |data|
  {
    var name := Target(e, data, at + 8);
    Descriptor(at, U32At(e, data, at), name, if CStringAt(data, name).Some? then CStringAt(data, name).value else [])
  }

  lemma DescriptorExactly(e: Endian, data: Bytes, d: Descriptor, kinds: set<nat>, size: nat)
    requires size >= 12
    ensures DescriptorStands(e, data, d, kinds, size) <==>
            && 0 <= d.at && d.at + size <= |data| && KindOf(e, data, d.at) in kinds
            && d == DescriptorAt(e, data, d.at) && CStringAt(data, d.name).Some?
  {
    if 0 <= d.at && d.at + size <= |data| {
      NumEncodesBack(e, data, d.at);
      if d.flags < U32 {
        NumberStands(e, data, d.at, d.flags);
      }
      PointsExactly(e, data, d.at + 8, d.name);
      TextExactly(data, d.name, d.raw);
    }
  }

  lemma DescriptorSays(e: Endian, data: Bytes, d: Descriptor, kinds: set<nat>, size: nat)
    requires size >= 12 && DescriptorStands(e, data, d, kinds, size)
    ensures KindOf(e, data, d.at) in kinds && Target(e, data, d.at + 8) == d.name
    ensures CStringAt(data, d.name) == Some(d.raw)
  {
    NumberStands(e, data, d.at, d.flags);
    PointsExactly(e, data, d.at + 8, d.name);
    TextExactly(data, d.name, d.raw);
  }

  // ----- entries -----

  /** An entry that points directly, not through another pointer. */
  ghost predicate EntryStands(e: Endian, data: Bytes, entry: nat, to: int) {
    Points(e, data, entry, to) && (to - entry) % 2 == 0
  }

  lemma EntryExactly(e: Endian, data: Bytes, entry: nat, to: int)
    requires entry + 4 <= |data|
    ensures EntryStands(e, data, entry, to) <==> Target(e, data, entry) == to && !Indirect(e, data, entry)
  {
    PointsExactly(e, data, entry, to);
  }

  ghost predicate ProtocolStands(e: Endian, data: Bytes, entry: nat, d: Descriptor) {
    EntryStands(e, data, entry, d.at) && DescriptorStands(e, data, d, {3}, 24)
  }

  lemma ProtocolResolves(e: Endian, data: Bytes, entry: nat, strict: Strict, at: nat, nameAt: int, raw: Bytes,
                         name: string)
    requires entry + 4 <= |data| && Target(e, data, entry) == at && !Indirect(e, data, entry) && at + 24 <= |data|
    requires KindOf(e, data, at) == 3 && Target(e, data, at + 8) == nameAt && CStringAt(data, nameAt) == Some(raw)
    requires Names(strict, raw, name) && name != ""
    ensures ResolveProtocol(e, data, entry, strict) == Found(name)
  {
  }

  lemma ProtocolIsRead(e: Endian, data: Bytes, entry: nat, strict: Strict, d: Descriptor, name: string)
    requires entry + 4 <= |data| && ProtocolStands(e, data, entry, d) && Names(strict, d.raw, name) && name != ""
    ensures ResolveProtocol(e, data, entry, strict) == Found(name)
  {
    ProtocolSays(e, data, entry, d, d.at);
    ProtocolResolves(e, data, entry, strict, d.at, d.name, d.raw, name);
  }

  lemma ProtocolSays(e: Endian, data: Bytes, entry: nat, d: Descriptor, at: nat)
    requires entry + 4 <= |data| && ProtocolStands(e, data, entry, d) && at == d.at
    ensures Target(e, data, entry) == at && !Indirect(e, data, entry) && at + 24 <= |data|
    ensures KindOf(e, data, at) == 3
    ensures Target(e, data, at + 8) == d.name && CStringAt(data, d.name) == Some(d.raw)
  {
    EntryExactly(e, data, entry, d.at);
    DescriptorSays(e, data, d, {3}, 24);
  }

  lemma ProtocolIsWritten(e: Endian, data: Bytes, entry: nat, strict: Strict, name: string) returns (d: Descriptor)
    requires entry + 4 <= |data| && ResolveProtocol(e, data, entry, strict) == Found(name)
    ensures ProtocolStands(e, data, entry, d) && Names(strict, d.raw, name) && name != ""
  {
    d := DescriptorAt(e, data, Target(e, data, entry));
    EntryExactly(e, data, entry, d.at);
    DescriptorExactly(e, data, d, {3}, 24);
  }

  /** A protocol entry is followed to a name exactly if the entry, the descriptor and the name are written. */
  lemma ProtocolReadsBack(e: Endian, data: Bytes, entry: nat, strict: Strict, name: string)
    requires entry + 4 <= |data|
    ensures ResolveProtocol(e, data, entry, strict) == Found(name) <==>
            exists d :: ProtocolStands(e, data, entry, d) && Names(strict, d.raw, name) && name != ""
  {
    if ResolveProtocol(e, data, entry, strict) == Found(name) {
      var d := ProtocolIsWritten(e, data, entry, strict, name);
    }
    if d :| ProtocolStands(e, data, entry, d) && Names(strict, d.raw, name) && name != "" {
      ProtocolIsRead(e, data, entry, strict, d, name);
    }
  }

  ghost predicate TypeStands(e: Endian, data: Bytes, entry: nat, d: Descriptor) {
    EntryStands(e, data, entry, d.at) && DescriptorStands(e, data, d, {16, 17, 18}, 20)
  }

  lemma TypeResolves(e: Endian, data: Bytes, entry: nat, strict: Strict, at: nat, nameAt: int, raw: Bytes,
                     name: string)
    requires entry + 4 <= |data| && Target(e, data, entry) == at && !Indirect(e, data, entry) && at + 20 <= |data|
    requires KindOf(e, data, at) in {16, 17, 18}
    requires Target(e, data, at + 8) == nameAt && CStringAt(data, nameAt) == Some(raw)
    requires Names(strict, raw, name) && raw != []
    ensures ResolveType(e, data, entry, strict) == Found((name, at))
  {
  }

  lemma TypeIsRead(e: Endian, data: Bytes, entry: nat, strict: Strict, d: Descriptor, name: string)
    requires entry + 4 <= |data| && TypeStands(e, data, entry, d) && Names(strict, d.raw, name) && d.raw != []
    ensures ResolveType(e, data, entry, strict) == Found((name, d.at))
  {
    TypeSays(e, data, entry, d, d.at);
    TypeResolves(e, data, entry, strict, d.at, d.name, d.raw, name);
  }

  lemma TypeSays(e: Endian, data: Bytes, entry: nat, d: Descriptor, at: nat)
    requires entry + 4 <= |data| && TypeStands(e, data, entry, d) && at == d.at
    ensures Target(e, data, entry) == at && !Indirect(e, data, entry) && at + 20 <= |data|
    ensures KindOf(e, data, at) in {16, 17, 18}
    ensures Target(e, data, at + 8) == d.name && CStringAt(data, d.name) == Some(d.raw)
  {
    EntryExactly(e, data, entry, d.at);
    DescriptorSays(e, data, d, {16, 17, 18}, 20);
  }

  lemma TypeIsWritten(e: Endian, data: Bytes, entry: nat, strict: Strict, name: string, at: nat)
    returns (d: Descriptor)
    requires entry + 4 <= |data| && ResolveType(e, data, entry, strict) == Found((name, at))
    ensures d.at == at && TypeStands(e, data, entry, d) && Names(strict, d.raw, name) && d.raw != []
  {
    d := DescriptorAt(e, data, Target(e, data, entry));
    EntryExactly(e, data, entry, d.at);
    DescriptorExactly(e, data, d, {16, 17, 18}, 20);
  }

  /** A type entry is followed to a name and a descriptor exactly if all three are written. */
  lemma TypeReadsBack(e: Endian, data: Bytes, entry: nat, strict: Strict, name: string, at: nat)
    requires entry + 4 <= |data|
    ensures ResolveType(e, data, entry, strict) == Found((name, at)) <==>
            exists d: Descriptor ::
              d.at == at && TypeStands(e, data, entry, d) && Names(strict, d.raw, name) && d.raw != []
  {
    if ResolveType(e, data, entry, strict) == Found((name, at)) {
      var d := TypeIsWritten(e, data, entry, strict, name, at);
    }
    forall d: Descriptor | d.at == at && TypeStands(e, data, entry, d) && Names(strict, d.raw, name) && d.raw != []
      ensures ResolveType(e, data, entry, strict) == Found((name, at))
    {
      TypeIsRead(e, data, entry, strict, d, name);
    }
  }

  // ----- conformances -----

  datatype Conformance = Conformance(record: int, proto: Descriptor, nominal: Descriptor)

  /** An entry leads to a record, that first to the protocol and then to the type, always directly. */
  ghost predicate Linked(e: Endian, data: Bytes, entry: nat, record: int, proto: int, nominal: int) {
    && EntryStands(e, data, entry, record) && 0 <= record && record + 16 <= |data|
    && Points(e, data, record, proto) && (proto - record) % 4 == 0
    && Points(e, data, record + 4, nominal) && (nominal - (record + 4)) % 4 == 0
  }

  ghost predicate ConformanceStands(e: Endian, data: Bytes, entry: nat, c: Conformance) {
    && Linked(e, data, entry, c.record, c.proto.at, c.nominal.at)
    && DescriptorStands(e, data, c.proto, {3}, 12) && DescriptorStands(e, data, c.nominal, {16, 17, 18}, 12)
  }

  lemma DescriptorNameExactly(e: Endian, data: Bytes, at: int, kinds: set<nat>, strict: Strict, name: string)
    ensures DescriptorName(e, data, at, kinds, strict) == Some(name) <==>
            exists d: Descriptor :: d.at == at && DescriptorStands(e, data, d, kinds, 12)
                && Names(strict, d.raw, name) && name != ""
  {
    forall d: Descriptor
      ensures DescriptorStands(e, data, d, kinds, 12) <==>
              && 0 <= d.at && d.at + 12 <= |data| && KindOf(e, data, d.at) in kinds
              && d == DescriptorAt(e, data, d.at) && CStringAt(data, d.name).Some?
    {
      DescriptorExactly(e, data, d, kinds, 12);
    }
    if 0 <= at && at + 12 <= |data| {
      var d := DescriptorAt(e, data, at);
      assert DescriptorName(e, data, at, kinds, strict) == Some(name) ==> DescriptorStands(e, data, d, kinds, 12);
    }
  }

  lemma RecordResolves(e: Endian, data: Bytes, entry: nat, strict: Strict, record: nat, proto: int, nominal: int,
                       protocolName: Option<string>, typeName: Option<string>)
    requires entry + 4 <= |data| && record + 16 <= |data|
    requires Target(e, data, entry) == record && !Indirect(e, data, entry)
    requires Target(e, data, record) == proto && Target(e, data, record + 4) == nominal
    requires I32At(e, data, record) % 4 == 0 && I32At(e, data, record + 4) % 4 == 0
    requires protocolName == DescriptorName(e, data, proto, {3}, strict)
    requires typeName == DescriptorName(e, data, nominal, NOMINAL_KINDS, strict)
    ensures ResolveConformance(e, data, entry, strict)
         == if protocolName == None || typeName == None then Broken else Found((typeName.value, protocolName.value))
  {
  }

  lemma LinkedResolves(e: Endian, data: Bytes, entry: nat, strict: Strict, record: int, proto: int, nominal: int,
                       protocolName: Option<string>, typeName: Option<string>)
    requires entry + 4 <= |data| && Linked(e, data, entry, record, proto, nominal)
    requires protocolName == DescriptorName(e, data, proto, {3}, strict)
    requires typeName == DescriptorName(e, data, nominal, {16, 17, 18}, strict)
    ensures ResolveConformance(e, data, entry, strict)
         == if protocolName == None || typeName == None then Broken else Found((typeName.value, protocolName.value))
  {
    EntryExactly(e, data, entry, record);
    PointsExactly(e, data, record, proto);
    PointsExactly(e, data, record + 4, nominal);
    assert {16, 17, 18} == NOMINAL_KINDS;
    assert I32At(e, data, record) == proto - record && I32At(e, data, record + 4) == nominal - (record + 4);
    RecordResolves(e, data, entry, strict, record, proto, nominal, protocolName, typeName);
  }

  lemma FoundIsLinked(e: Endian, data: Bytes, entry: nat, strict: Strict)
      returns (record: int, proto: int, nominal: int)
    requires entry + 4 <= |data| && ResolveConformance(e, data, entry, strict).Found?
    ensures Linked(e, data, entry, record, proto, nominal)
  {
    record := Target(e, data, entry);
    proto, nominal := Target(e, data, record), Target(e, data, record + 4);
    EntryExactly(e, data, entry, record);
    PointsExactly(e, data, record, proto);
    PointsExactly(e, data, record + 4, nominal);
  }

  lemma ConformanceIsRead(e: Endian, data: Bytes, entry: nat, strict: Strict, c: Conformance, typeName: string,
                          protocolName: string)
    requires entry + 4 <= |data| && ConformanceWritten(e, data, entry, strict, c, typeName, protocolName)
    ensures ResolveConformance(e, data, entry, strict) == Found((typeName, protocolName))
  {
    DescriptorNameExactly(e, data, c.proto.at, {3}, strict, protocolName);
    DescriptorNameExactly(e, data, c.nominal.at, {16, 17, 18}, strict, typeName);
    LinkedResolves(e, data, entry, strict, c.record, c.proto.at, c.nominal.at, Some(protocolName), Some(typeName));
  }

  lemma DescriptorIsWritten(e: Endian, data: Bytes, at: int, kinds: set<nat>, strict: Strict, name: string)
    returns (d: Descriptor)
    requires DescriptorName(e, data, at, kinds, strict) == Some(name)
    ensures d.at == at && DescriptorStands(e, data, d, kinds, 12) && Names(strict, d.raw, name) && name != ""
  {
    DescriptorNameExactly(e, data, at, kinds, strict, name);
    d :| d.at == at && DescriptorStands(e, data, d, kinds, 12) && Names(strict, d.raw, name);
  }

  lemma ConformanceIsWritten(e: Endian, data: Bytes, entry: nat, strict: Strict, typeName: string,
                             protocolName: string)
    returns (c: Conformance)
    requires entry + 4 <= |data| && ResolveConformance(e, data, entry, strict) == Found((typeName, protocolName))
    ensures ConformanceWritten(e, data, entry, strict, c, typeName, protocolName)
  {
    var record, proto, nominal := FoundIsLinked(e, data, entry, strict);
    LinkedResolves(e, data, entry, strict, record, proto, nominal, DescriptorName(e, data, proto, {3}, strict),
                   DescriptorName(e, data, nominal, {16, 17, 18}, strict));
    var p := DescriptorIsWritten(e, data, proto, {3}, strict, protocolName);
    var n := DescriptorIsWritten(e, data, nominal, {16, 17, 18}, strict, typeName);
    c := Conformance(record, p, n);
  }

  ghost predicate ConformanceWritten(e: Endian, data: Bytes, entry: nat, strict: Strict, c: Conformance,
                                     typeName: string, protocolName: string) {
    && ConformanceStands(e, data, entry, c)
    && Names(strict, c.nominal.raw, typeName) && typeName != ""
    && Names(strict, c.proto.raw, protocolName) && protocolName != ""
  }

  /** A conformance entry is followed to a type and a protocol exactly if all that ties them together is written. */
  lemma ConformanceReadsBack(e: Endian, data: Bytes, entry: nat, strict: Strict, typeName: string,
                             protocolName: string)
    requires entry + 4 <= |data|
    ensures ResolveConformance(e, data, entry, strict) == Found((typeName, protocolName)) <==>
            exists c :: ConformanceWritten(e, data, entry, strict, c, typeName, protocolName)
  {
    if ResolveConformance(e, data, entry, strict) == Found((typeName, protocolName)) {
      var c := ConformanceIsWritten(e, data, entry, strict, typeName, protocolName);
    }
    if c :| ConformanceWritten(e, data, entry, strict, c, typeName, protocolName) {
      ConformanceIsRead(e, data, entry, strict, c, typeName, protocolName);
    }
  }
}
