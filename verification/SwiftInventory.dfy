/**
 The three Swift inventories of a file together: what each of them promises about the entries of its sections.
 */
module SwiftInventory {
  import opened Wrappers
  import opened LittleEndian
  import opened MachO
  import opened SwiftMetadata
  import opened SwiftFields

  // ----- what the bytes lead to -----

  ghost function ViewOf(e: Endian, data: Bytes, sections: seq<Section>, strict: Strict, ascii: Strict): View {
    View((p: nat) => if p + 4 <= |data| then ResolveType(e, data, p, strict) else Other,
         (p: nat) => if p + 4 <= |data| then NameOnly(ResolveType(e, data, p, strict)) else Other,
         (d: nat) => if d + 20 <= |data| then RecordsAt(e, data, sections, d) else Other,
         (r: nat) => if r + 12 <= |data| then ResolveRecord(e, data, r, strict, ascii) else Other)
  }

  ghost function ProtocolsOf(e: Endian, data: Bytes, strict: Strict): nat -> Resolved<string> {
    (p: nat) => if p + 4 <= |data| then ResolveProtocol(e, data, p, strict) else Other
  }

  ghost function ConformancesOf(e: Endian, data: Bytes, strict: Strict): nat -> Resolved<(string, string)> {
    (p: nat) => if p + 4 <= |data| then ResolveConformance(e, data, p, strict) else Other
  }

  lemma ViewShows(e: Endian, data: Bytes, sections: seq<Section>, strict: Strict, ascii: Strict)
    ensures Shows(ViewOf(e, data, sections, strict, ascii), e, data, sections, strict, ascii)
    ensures ResolvesProtocols(ProtocolsOf(e, data, strict), e, data, strict)
    ensures ResolvesConformances(ConformancesOf(e, data, strict), e, data, strict)
  {
  }

  // ----- one inventory each -----

  /** The part of the result that belongs to the type inventory. */
  datatype Types = Types(names: seq<string>, lists: Lists, status: MetadataStatus)

  function TypesIn(result: MachoAnalysisResult): Types
    reads result
  {
    Types(result.typeNames, ListsOf(result), result.typeStatus)
  }

  /** Without a section nothing changes; otherwise the outcome is that of the entries of all of them. */
  ghost function TypesRead(e: Endian, data: Bytes, sections: seq<Section>, strict: Strict, ascii: Strict): (Types,
      Types) -> bool {
    (before: Types, after: Types) =>
      var found := SectionsNamed(sections, "__swift5_types");
      if found == [] then after == before
      else TypesInventoried(data, found, ViewOf(e, data, sections, strict, ascii), before.names, before.lists)(
             after.names, after.lists, after.status)
  }

  ghost function ProtocolsRead(e: Endian, data: Bytes, sections: seq<Section>, strict: Strict):
    (seq<string>, MetadataStatus, seq<string>, MetadataStatus) -> bool
  {
    (names: seq<string>, status: MetadataStatus, names': seq<string>, status': MetadataStatus) =>
      var found := SectionsNamed(sections, "__swift5_protos");
      if found == [] then names' == names && status' == status
      else status' != NotLooked && Inventoried(data, found, ProtocolsOf(e, data, strict), names)(names',
          status' == PartlyParsed)
  }

  ghost function ConformancesRead(e: Endian, data: Bytes, sections: seq<Section>, strict: Strict):
    (seq<(string, string)>, MetadataStatus, seq<(string, string)>, MetadataStatus) -> bool
  {
    (pairs: seq<(string, string)>, status: MetadataStatus, pairs': seq<(string, string)>, status': MetadataStatus) =>
      var found := SectionsNamed(sections, "__swift5_proto");
      if found == [] then pairs' == pairs && status' == status
      else exists trouble, full ::
             PairsInventoried(data, found, ConformancesOf(e, data, strict), pairs)(pairs', status', trouble, full)
  }

  method ReadTypes(data: Bytes, e: Endian, strict: Strict, ascii: Strict, result: MachoAnalysisResult)
    modifies result`typeNames, result`fieldMetadata, result`fieldTypes, result`typeFields, result`typeStatus
    ensures TypesRead(e, data, result.sections, strict, ascii)(old(TypesIn(result)), TypesIn(result))
  {
    ghost var view := ViewOf(e, data, result.sections, strict, ascii);
    ViewShows(e, data, result.sections, strict, ascii);
    ExtractSwiftTypeNames(data, result, e, strict, ascii, view);
  }

  method ReadProtocols(data: Bytes, e: Endian, strict: Strict, result: MachoAnalysisResult)
    modifies result`protocolNames, result`protocolStatus
    ensures ProtocolsRead(e, data, result.sections, strict)(
              old(result.protocolNames), old(result.protocolStatus), result.protocolNames, result.protocolStatus)
  {
    ViewShows(e, data, result.sections, strict, strict);
    ExtractSwiftProtocolNames(data, result, e, strict, ProtocolsOf(e, data, strict));
  }

  method ReadConformances(data: Bytes, e: Endian, strict: Strict, result: MachoAnalysisResult)
    modifies result`conformances, result`conformanceStatus
    ensures ConformancesRead(e, data, result.sections, strict)(
              old(result.conformances), old(result.conformanceStatus), result.conformances, result.conformanceStatus)
  {
    ViewShows(e, data, result.sections, strict, strict);
    ghost var trouble, full := ExtractSwiftConformances(data, result, e, strict, ConformancesOf(e, data, strict));
    assert SectionsNamed(result.sections, "__swift5_proto") != [] ==>
      PairsInventoried(data, SectionsNamed(result.sections, "__swift5_proto"), ConformancesOf(e, data, strict),
                       old(result.conformances))(
        result.conformances, result.conformanceStatus, trouble, full);
  }

  // ----- all three -----

  /** Everything in the result that comes from Swift metadata. */
  datatype Swift = Swift(types: Types, protocols: seq<string>, protocolStatus: MetadataStatus,
                         conformances: seq<(string, string)>, conformanceStatus: MetadataStatus)

  function SwiftIn(result: MachoAnalysisResult): Swift
    reads result
  {
    Swift(TypesIn(result), result.protocolNames, result.protocolStatus, result.conformances, result.conformanceStatus)
  }

  ghost function SwiftRead(e: Endian, data: Bytes, sections: seq<Section>, strict: Strict, ascii: Strict): (Swift,
      Swift) -> bool {
    (before: Swift, after: Swift) =>
      && TypesRead(e, data, sections, strict, ascii)(before.types, after.types)
      && ProtocolsRead(e, data, sections, strict)(before.protocols, before.protocolStatus, after.protocols,
                                                  after.protocolStatus)
      && ConformancesRead(e, data, sections, strict)(before.conformances, before.conformanceStatus,
                                                     after.conformances, after.conformanceStatus)
  }

  method ParseSwift(data: Bytes, e: Endian, strict: Strict, ascii: Strict, result: MachoAnalysisResult)
    modifies result`typeNames, result`fieldMetadata, result`fieldTypes, result`typeFields, result`typeStatus
    modifies result`protocolNames, result`protocolStatus, result`conformances, result`conformanceStatus
    ensures SwiftRead(e, data, result.sections, strict, ascii)(old(SwiftIn(result)), SwiftIn(result))
  {
    ReadTypes(data, e, strict, ascii, result);
    ReadProtocols(data, e, strict, result);
    ReadConformances(data, e, strict, result);
  }

  // ----- what a status means -----

  lemma {:induction false} SectionsHaveEntries(data: Bytes, sections: seq<Section>, s: Section, p: nat)
    requires s in sections && Readable(data, s) && p in EntriesOf(s)
    ensures p in Entries(data, sections)
    decreases |sections|
  {
    var n := |sections| - 1;
    if s != sections[n] {
      assert s in sections[..n];
      SectionsHaveEntries(data, sections[..n], s, p);
    }
  }

  /** A type entry has been followed: its name is listed unless the list is full, and all its field records are. */
  ghost predicate TypeFollowed(v: View, p: nat, types: Types) {
    && v.names(p) != Broken && !FieldsBroken(v, p)
    && (v.names(p).Found? ==> v.names(p).value in types.names || |types.names| >= MAX_CANDIDATES)
    && forall g :: g in GroupAt(v, p) ==> AllRecordsListed(types.lists, g, v.records)
  }

  /** Types that were parsed have every type section readable and every entry of it followed. */
  lemma TypesParsed(e: Endian, data: Bytes, sections: seq<Section>, strict: Strict, ascii: Strict, before: Types,
                    after: Types, s: Section, p: nat)
    requires TypesRead(e, data, sections, strict, ascii)(before, after) && after.status == Parsed
    requires s in sections && s.name == "__swift5_types"
    ensures Readable(data, s) && (p in EntriesOf(s) ==> TypeFollowed(ViewOf(e, data, sections, strict, ascii), p,
                                                                     after))
  {
    var found, v := SectionsNamed(sections, "__swift5_types"), ViewOf(e, data, sections, strict, ascii);
    assert s in found;
    ParsedMeansComplete(data, found, v, before.names, before.lists, after.names, after.lists, p);
    if p in EntriesOf(s) {
      SectionsHaveEntries(data, found, s, p);
    }
  }

  /** Protocols that were parsed have every entry followed, and its name listed unless the list is full. */
  lemma ProtocolsParsed(e: Endian, data: Bytes, sections: seq<Section>, strict: Strict, names: seq<string>,
                        status: MetadataStatus, names': seq<string>, s: Section, p: nat)
    requires ProtocolsRead(e, data, sections, strict)(names, status, names', Parsed)
    requires s in sections && s.name == "__swift5_protos"
    ensures Readable(data, s)
    ensures p in EntriesOf(s) ==>
              && ProtocolsOf(e, data, strict)(p) != Broken
              && (ProtocolsOf(e, data, strict)(p).Found? ==>
                    ProtocolsOf(e, data, strict)(p).value in names' || |names'| >= MAX_CANDIDATES)
  {
    var found, resolve := SectionsNamed(sections, "__swift5_protos"), ProtocolsOf(e, data, strict);
    assert s in found;
    InventoryIsClean(data, found, resolve, names, names');
    if p in EntriesOf(s) {
      SectionsHaveEntries(data, found, s, p);
    }
  }

  /** Conformances that were parsed have every entry followed, and every pair listed. */
  lemma ConformancesParsed(e: Endian, data: Bytes, sections: seq<Section>, strict: Strict,
                           pairs: seq<(string, string)>, status: MetadataStatus, pairs': seq<(string, string)>,
                           s: Section, p: nat)
    requires ConformancesRead(e, data, sections, strict)(pairs, status, pairs', Parsed)
    requires s in sections && s.name == "__swift5_proto"
    ensures Readable(data, s)
    ensures p in EntriesOf(s) ==>
              && ConformancesOf(e, data, strict)(p) != Broken
              && (ConformancesOf(e, data, strict)(p).Found? ==> ConformancesOf(e, data, strict)(p).value in pairs')
  {
    var found, resolve := SectionsNamed(sections, "__swift5_proto"), ConformancesOf(e, data, strict);
    assert s in found;
    var trouble, full :| PairsInventoried(data, found, resolve, pairs)(pairs', Parsed, trouble, full);
    assert !trouble && !full;
    assert Inventoried(data, found, resolve, pairs)(pairs', false);
    InventoryIsClean(data, found, resolve, pairs, pairs');
    if p in EntriesOf(s) {
      SectionsHaveEntries(data, found, s, p);
      assert AllOrFull(pairs', Examined(Entries(data, found)), resolve, false);
    }
  }
}
