/**
 The field records of Swift type descriptors: names, flags and textual mangled types, each reached through relative
 offsets, listed without repeats up to a cap.
 */
module SwiftFields {
  import opened Wrappers
  import opened LittleEndian
  import opened MachO
  import opened SwiftMetadata

  const MAX_FIELDS: nat := 1000
  const MAX_RECORDS: nat := 10000
  const RECORD_SIZE: nat := 12

  // ----- where the records are -----

  /** A field-metadata section in which a descriptor can stand at fd. */
  predicate FieldSectionFits(data: Bytes, s: Section, fd: int) {
    && s.name == "__swift5_fieldmd" && s.offset <= |data| && s.size <= |data| - s.offset
    && s.size >= 16 && s.offset <= fd <= s.offset + s.size - 16
  }

  function FieldSection(data: Bytes, sections: seq<Section>, fd: int): (r: Option<Section>)
    ensures r.Some? ==> r.value in sections && FieldSectionFits(data, r.value, fd)
    ensures r == None ==> forall s :: s in sections ==> !FieldSectionFits(data, s, fd)
  {
    if sections == [] then None
    else if FieldSectionFits(data, sections[0], fd) then Some(sections[0])
    else FieldSection(data, sections[1..], fd)
  }

  /** The first record and the number of records of a type descriptor. */
  function RecordsAt(e: Endian, data: Bytes, sections: seq<Section>, d: nat): (r: Resolved<(nat, nat)>)
    requires d + 20 <= |data|
    ensures r.Found? ==> r.value.0 + RECORD_SIZE * r.value.1 <= |data|
    ensures r.Found? ==> exists s :: s in sections && s.name == "__swift5_fieldmd" && s.offset + s.size <= |data|
                                  && s.offset <= r.value.0 && r.value.0 + RECORD_SIZE * r.value.1 <= s.offset + s.size
  {
    if I32At(e, data, d + 16) == 0 then Other
    else
      var fd := Target(e, data, d + 16);
      match FieldSection(data, sections, fd)
      case None => Broken
      case Some(s) =>
        var end, count, start := s.offset + s.size, U32At(e, data, fd + 12), fd + 16;
        if Num(e, data, fd + 8, 2) > 3 || Num(e, data, fd + 10, 2) != RECORD_SIZE || count > MAX_FIELDS then Broken
        else if start > end || count * RECORD_SIZE > end - start then Broken
        else
          assert s in sections && s.offset <= start && start + RECORD_SIZE * count <= s.offset + s.size;
          Found((start, count))
  }

  // ----- one record -----

  datatype Record = Record(name: string, isIndirectCase: bool, isVar: bool, isArtificial: bool,
                           mangled: Resolved<string>)

  const PREFIXES: set<Bytes> := {[0x24, 0x73], [0x24, 0x53], [0x24, 0x65], [0x5F, 0x54]}

  /** The textual mangled type of a record; symbolic references are not followed. */
  function ResolveMangled(e: Endian, data: Bytes, r: nat, ascii: Strict): Resolved<string>
    requires r + 12 <= |data|
  {
    if I32At(e, data, r + 4) == 0 then Other
    else
      var raw := CStringAt(data, Target(e, data, r + 4));
      if raw == None || |raw.value| < 2 || raw.value[..2] !in PREFIXES || ascii(raw.value) == None then Broken
      else if !Graphic(ascii(raw.value).value) then Broken
      else Found(ascii(raw.value).value)
  }

  function ResolveRecord(e: Endian, data: Bytes, r: nat, strict: Strict, ascii: Strict): Resolved<Record>
    requires r + 12 <= |data|
  {
    var raw := CStringAt(data, Target(e, data, r + 8));
    if I32At(e, data, r + 8) == 0 || raw == None || strict(raw.value) == None then Broken
    else
      var name, flags := strict(raw.value).value, U32At(e, data, r);
      if name == "" || !Printable(name) then Broken
      else Found(Record(name, flags % 2 == 1, flags / 2 % 2 == 1, flags / 4 % 2 == 1,
                        ResolveMangled(e, data, r, ascii)))
  }

  // ----- what is listed -----

  datatype Lists = Lists(metadata: seq<FieldMetadata>, types: seq<FieldType>, fields: seq<(string, seq<string>)>)

  function MetadataOf(t: string, x: Record): FieldMetadata {
    FieldMetadata(t, x.name, x.isIndirectCase, x.isVar, x.isArtificial)
  }

  /** Adds an item unless it is there; the flag says that there was no room. */
  function Capped<T(==)>(items: seq<T>, x: T): (seq<T>, bool) {
    if x in items then (items, false)
    else if |items| < MAX_CANDIDATES then (items + [x], false)
    else (items, true)
  }

  /** One more record of type t: the new lists, and whether something got lost. */
  function AfterRecord(l: Lists, t: string, r: Resolved<Record>): (Lists, bool) {
    if !r.Found? then (l, true)
    else
      var (metadata, full) := Capped(l.metadata, MetadataOf(t, r.value));
      var m := r.value.mangled;
      if !m.Found? then (l.(metadata := metadata), full || m == Broken)
      else
        var (types, crowded) := Capped(l.types, FieldType(t, r.value.name, m.value));
        (l.(metadata := metadata, types := types), full || crowded)
  }

  /** Record r of type t is fully in the lists. */
  ghost predicate RecordListed(l: Lists, t: string, r: Resolved<Record>) {
    && r.Found? && MetadataOf(t, r.value) in l.metadata && r.value.mangled != Broken
    && (r.value.mangled.Found? ==> FieldType(t, r.value.name, r.value.mangled.value) in l.types)
  }

  type Seen = seq<(string, nat)>

  type Records = nat -> Resolved<Record>

  ghost predicate MetadataFrom(m: FieldMetadata, seen: Seen, resolve: Records) {
    exists k :: 0 <= k < |seen| && resolve(seen[k].1).Found? && m == MetadataOf(seen[k].0, resolve(seen[k].1).value)
  }

  ghost predicate TypeFrom(f: FieldType, seen: Seen, resolve: Records) {
    exists k :: 0 <= k < |seen| && resolve(seen[k].1).Found?
             && f.typeName == seen[k].0 && f.fieldName == resolve(seen[k].1).value.name
             && resolve(seen[k].1).value.mangled == Found(f.mangled)
  }

  /** Everything listed comes from the records seen; with nothing lost, every one of them is listed. */
  ghost function Holds(resolve: Records, before: Lists): (Lists, Seen, bool) -> bool {
    (l: Lists, seen: Seen, lost: bool) =>
      && before.metadata <= l.metadata && before.types <= l.types
      && (forall m :: m in l.metadata ==> m in before.metadata || MetadataFrom(m, seen, resolve))
      && (forall f :: f in l.types ==> f in before.types || TypeFrom(f, seen, resolve))
      && (!lost ==> forall k :: 0 <= k < |seen| ==> RecordListed(l, seen[k].0, resolve(seen[k].1)))
  }

  lemma FromMore(seen: Seen, x: (string, nat), resolve: Records)
    ensures forall m :: MetadataFrom(m, seen, resolve) ==> MetadataFrom(m, seen + [x], resolve)
    ensures forall f :: TypeFrom(f, seen, resolve) ==> TypeFrom(f, seen + [x], resolve)
  {
    var all := seen + [x];
    forall m | MetadataFrom(m, seen, resolve) ensures MetadataFrom(m, all, resolve) {
      var k :| 0 <= k < |seen| && resolve(seen[k].1).Found? && m == MetadataOf(seen[k].0, resolve(seen[k].1).value);
      assert all[k] == seen[k];
    }
    forall f | TypeFrom(f, seen, resolve) ensures TypeFrom(f, all, resolve) {
      var k :| 0 <= k < |seen| && resolve(seen[k].1).Found?
             && f.typeName == seen[k].0 && f.fieldName == resolve(seen[k].1).value.name
             && resolve(seen[k].1).value.mangled == Found(f.mangled);
      assert all[k] == seen[k];
    }
  }

  lemma CappedHolds<T>(items: seq<T>, x: T)
    ensures items <= Capped(items, x).0
    ensures forall y :: y in Capped(items, x).0 ==> y in items || y == x
    ensures !Capped(items, x).1 ==> x in Capped(items, x).0
  {
  }

  lemma NewestFrom(seen: Seen, t: string, p: nat, resolve: Records)
    requires resolve(p).Found?
    ensures MetadataFrom(MetadataOf(t, resolve(p).value), seen + [(t, p)], resolve)
    ensures resolve(p).value.mangled.Found? ==>
              TypeFrom(FieldType(t, resolve(p).value.name, resolve(p).value.mangled.value), seen + [(t, p)], resolve)
  {
    var all := seen + [(t, p)];
    assert all[|seen|] == (t, p);
  }

  lemma StaysListed(l: Lists, l': Lists, t: string, r: Resolved<Record>)
    requires l.metadata <= l'.metadata && l.types <= l'.types
    ensures RecordListed(l, t, r) ==> RecordListed(l', t, r)
  {
  }

  lemma AfterRecordHolds(resolve: Records, before: Lists, l: Lists, seen: Seen, lost: bool, t: string, p: nat)
    requires Holds(resolve, before)(l, seen, lost)
    ensures var (l', gone) := AfterRecord(l, t, resolve(p));
            Holds(resolve, before)(l', seen + [(t, p)], lost || gone)
  {
    var r, all := resolve(p), seen + [(t, p)];
    var (l', gone) := AfterRecord(l, t, r);
    FromMore(seen, (t, p), resolve);
    if r.Found? {
      NewestFrom(seen, t, p, resolve);
      CappedHolds(l.metadata, MetadataOf(t, r.value));
      if r.value.mangled.Found? { CappedHolds(l.types, FieldType(t, r.value.name, r.value.mangled.value)); }
    }
    assert before.metadata <= l'.metadata && before.types <= l'.types;
    if !(lost || gone) {
      forall k | 0 <= k < |all| ensures RecordListed(l', all[k].0, resolve(all[k].1)) {
        if k < |seen| { StaysListed(l, l', seen[k].0, resolve(seen[k].1)); }
      }
    }
  }

  /** Reading records in order, from given lists on: the lists then, and whether something got lost. */
  ghost function Listing(resolve: Records, before: Lists, seen: Seen): (Lists, bool) {
    if seen == [] then (before, false)
    else
      var n := |seen| - 1;
      var (l, lost) := Listing(resolve, before, seen[..n]);
      var (l', gone) := AfterRecord(l, seen[n].0, resolve(seen[n].1));
      (l', lost || gone)
  }

  lemma ListingMore(resolve: Records, before: Lists, seen: Seen, x: (string, nat))
    ensures var (l, lost) := Listing(resolve, before, seen);
            var (l', gone) := AfterRecord(l, x.0, resolve(x.1));
            Listing(resolve, before, seen + [x]) == (l', lost || gone)
  {
    assert (seen + [x])[..|seen|] == seen;
  }

  /** What reading lists can be traced to the records read. */
  lemma {:induction false} ListingHolds(resolve: Records, before: Lists, seen: Seen)
    ensures var (l, lost) := Listing(resolve, before, seen);
            Holds(resolve, before)(l, seen, lost)
  {
    if seen != [] {
      var n := |seen| - 1;
      ListingHolds(resolve, before, seen[..n]);
      var (l, lost) := Listing(resolve, before, seen[..n]);
      AfterRecordHolds(resolve, before, l, seen[..n], lost, seen[n].0, seen[n].1);
      assert seen[..n] + [(seen[n].0, seen[n].1)] == seen;
    }
  }

  /** A record that cannot be listed any more: unreadable, or missing from a full list. */
  ghost predicate LostForGood(l: Lists, t: string, r: Resolved<Record>) {
    || !r.Found? || r.value.mangled == Broken
    || (MetadataOf(t, r.value) !in l.metadata && |l.metadata| >= MAX_CANDIDATES)
    || (r.value.mangled.Found? && FieldType(t, r.value.name, r.value.mangled.value) !in l.types
        && |l.types| >= MAX_CANDIDATES)
  }

  lemma GoodIsGood(l: Lists, t: string, r: Resolved<Record>, t': string, r': Resolved<Record>)
    ensures LostForGood(l, t, r) ==> LostForGood(AfterRecord(l, t', r').0, t, r) && !RecordListed(l, t, r)
    ensures AfterRecord(l, t, r).1 <==> LostForGood(AfterRecord(l, t, r).0, t, r)
  {
  }

  ghost predicate SomeLost(l: Lists, seen: Seen, resolve: Records) {
    exists k :: 0 <= k < |seen| && LostForGood(l, seen[k].0, resolve(seen[k].1))
  }

  lemma {:induction false} LossIsForGood(resolve: Records, before: Lists, seen: Seen)
    ensures var (l, lost) := Listing(resolve, before, seen);
            lost ==> SomeLost(l, seen, resolve)
  {
    if seen != [] {
      var n := |seen| - 1;
      var (l, lost) := Listing(resolve, before, seen[..n]);
      var t, r := seen[n].0, resolve(seen[n].1);
      LossIsForGood(resolve, before, seen[..n]);
      GoodIsGood(l, t, r, t, r);
      if lost {
        var k :| 0 <= k < n && LostForGood(l, seen[..n][k].0, resolve(seen[..n][k].1));
        GoodIsGood(l, seen[k].0, resolve(seen[k].1), t, r);
      }
    }
  }

  ghost predicate AllSeenListed(l: Lists, seen: Seen, resolve: Records) {
    forall k :: 0 <= k < |seen| ==> RecordListed(l, seen[k].0, resolve(seen[k].1))
  }

  lemma SameListed(l: Lists, l': Lists, seen: Seen, resolve: Records)
    requires l.metadata == l'.metadata && l.types == l'.types && AllSeenListed(l, seen, resolve)
    ensures AllSeenListed(l', seen, resolve)
  {
    forall k | 0 <= k < |seen| ensures RecordListed(l', seen[k].0, resolve(seen[k].1)) {
      StaysListed(l, l', seen[k].0, resolve(seen[k].1));
    }
  }

  /** Reading loses something exactly if a record read is not in the lists with all it says. */
  lemma LosesExactly(resolve: Records, before: Lists, seen: Seen)
    ensures var (l, lost) := Listing(resolve, before, seen);
            lost <==> !AllSeenListed(l, seen, resolve)
  {
    var (l, lost) := Listing(resolve, before, seen);
    ListingHolds(resolve, before, seen);
    if lost {
      LossIsForGood(resolve, before, seen);
      var k :| 0 <= k < |seen| && LostForGood(l, seen[k].0, resolve(seen[k].1));
      GoodIsGood(l, seen[k].0, resolve(seen[k].1), seen[k].0, resolve(seen[k].1));
    }
  }

  /** The metadata and types are those of the records read; the names of the fields come by type. */
  ghost function Reading(resolve: Records, before: Lists): (Lists, Seen, bool) -> bool {
    (l: Lists, seen: Seen, lost: bool) => (l.(fields := before.fields), lost) == Listing(resolve, before, seen)
  }

  lemma ReadingMore(resolve: Records, before: Lists, l: Lists, seen: Seen, lost: bool, t: string, p: nat)
    requires Reading(resolve, before)(l, seen, lost)
    ensures var (l', gone) := AfterRecord(l, t, resolve(p));
            Reading(resolve, before)(l', seen + [(t, p)], lost || gone)
  {
    ListingMore(resolve, before, seen, (t, p));
  }

  lemma FieldsApart(resolve: Records, before: Lists, l: Lists, fields: seq<(string, seq<string>)>, seen: Seen,
                    lost: bool)
    requires Reading(resolve, before)(l, seen, lost)
    ensures Reading(resolve, before)(l.(fields := fields), seen, lost)
  {
  }

  // ----- the records of one type -----

  /** Some of the records of a type, from the first on. */
  datatype Group = Group(typeName: string, start: nat, count: nat)

  ghost function RecordsOf(g: Group): (r: Seen)
    ensures |r| == g.count && forall i :: 0 <= i < |r| ==> r[i] == (g.typeName, g.start + RECORD_SIZE * i)
  {
    seq(g.count, i requires 0 <= i => (g.typeName, g.start + RECORD_SIZE * i))
  }

  function RecordAt(g: Group, i: nat): nat { g.start + RECORD_SIZE * i }

  ghost function SeenOf(groups: seq<Group>): Seen {
    if groups == [] then [] else SeenOf(groups[..|groups| - 1]) + RecordsOf(groups[|groups| - 1])
  }

  function Less(a: nat, b: nat): nat { if a < b then a else b }

  /** How many of count records a budget allows once some have been read. */
  function Room(read: nat, count: nat): nat { if read >= MAX_RECORDS then 0 else Less(count, MAX_RECORDS - read) }

  /** The same types, each with the records that are read of it as far as the budget goes. */
  ghost function Within(groups: seq<Group>): seq<Group> {
    if groups == [] then []
    else
      var earlier, g := Within(groups[..|groups| - 1]), groups[|groups| - 1];
      earlier + [g.(count := Room(|SeenOf(earlier)|, g.count))]
  }

  lemma SeenMore(groups: seq<Group>, g: Group)
    ensures SeenOf(groups + [g]) == SeenOf(groups) + RecordsOf(g)
  {
    assert (groups + [g])[..|groups|] == groups;
  }

  lemma WithinMore(groups: seq<Group>, g: Group)
    ensures Within(groups + [g]) == Within(groups) + [g.(count := Room(|SeenOf(Within(groups))|, g.count))]
  {
    assert (groups + [g])[..|groups|] == groups;
  }

  lemma FirstOfBoth(all: Seen, more: Seen)
    ensures var read := all[..Less(|all|, MAX_RECORDS)];
            read + more[..Room(|read|, |more|)] == (all + more)[..Less(|all| + |more|, MAX_RECORDS)]
  {
  }

  lemma {:induction false} WithinCuts(groups: seq<Group>)
    ensures CutShort(Within(groups), groups)
  {
    if groups != [] {
      WithinCuts(groups[..|groups| - 1]);
    }
  }

  /** What is read are the first ten thousand of all records. */
  lemma {:induction false} FirstRecordsAreRead(groups: seq<Group>)
    ensures SeenOf(Within(groups)) == SeenOf(groups)[..Less(|SeenOf(groups)|, MAX_RECORDS)]
  {
    if groups != [] {
      var n := |groups| - 1;
      var earlier, g := groups[..n], groups[n];
      var read, all := SeenOf(Within(earlier)), SeenOf(earlier);
      var cut := g.(count := Room(|read|, g.count));
      FirstRecordsAreRead(earlier);
      SeenMore(Within(earlier), cut);
      assert groups == earlier + [g];
      SeenMore(earlier, g);
      assert RecordsOf(cut) == RecordsOf(g)[..cut.count];
      FirstOfBoth(all, RecordsOf(g));
    }
  }

  /** The same types, with some records of some of them missing. */
  ghost predicate CutShort(groups: seq<Group>, full: seq<Group>) {
    && |groups| == |full|
    && forall i :: 0 <= i < |groups| ==>
         groups[i].typeName == full[i].typeName && groups[i].start == full[i].start && groups[i].count <= full[i].count
  }

  /** The counter of examined records after some have been read: one too many once the budget is spent. */
  predicate Spent(examined: nat, read: nat) {
    read == Less(examined, MAX_RECORDS)
  }

  /** The field names that could be read, in order. */
  ghost function NamesOf(g: Group, resolve: Records): seq<string>
    decreases g.count
  {
    if g.count == 0 then []
    else
      var r := resolve(g.start + RECORD_SIZE * (g.count - 1));
      NamesOf(g.(count := g.count - 1), resolve) + if r.Found? then [r.value.name] else []
  }

  lemma NamesMore(g: Group, resolve: Records, p: nat, r: Resolved<Record>)
    requires p == g.start + RECORD_SIZE * g.count && r == resolve(p)
    ensures NamesOf(g.(count := g.count + 1), resolve) == NamesOf(g, resolve) + if r.Found? then [r.value.name] else []
  {
    assert g.(count := g.count + 1).(count := g.count) == g;
  }

  /** One entry per type with readable names, up to the cap. */
  ghost function FieldLists(before: seq<(string, seq<string>)>, groups: seq<Group>, resolve: Records): seq<(string,
      seq<string>)> {
    if groups == [] then before
    else
      var g, earlier := groups[|groups| - 1], FieldLists(before, groups[..|groups| - 1], resolve);
      if NamesOf(g, resolve) != [] && |earlier| < MAX_CANDIDATES then earlier
          + [(g.typeName, NamesOf(g, resolve))] else earlier
  }

  ghost predicate ResolvesRecords(resolve: Records, e: Endian, data: Bytes, strict: Strict, ascii: Strict) {
    forall p: nat {:trigger LookUp(p)} :: LookUp(p) && p + 12 <= |data| ==>
        resolve(p) == ResolveRecord(e, data, p, strict, ascii)
  }

  method ReadRecord(data: Bytes, e: Endian, p: nat, strict: Strict, ascii: Strict, ghost resolve: Records)
      returns (r: Resolved<Record>)
    requires p + 12 <= |data| && ResolvesRecords(resolve, e, data, strict, ascii)
    ensures r == resolve(p)
  {
    assert LookUp(p);
    r := ResolveRecord(e, data, p, strict, ascii);
  }

  /** The lists of the result object. */
  function ListsOf(result: MachoAnalysisResult): Lists
    reads result
  {
    Lists(result.fieldMetadata, result.fieldTypes, result.typeFields)
  }

  method ListRecord(result: MachoAnalysisResult, t: string, r: Resolved<Record>)
    modifies result`fieldMetadata, result`fieldTypes, result`typeStatus
    ensures var (l, gone) := AfterRecord(old(ListsOf(result)), t, r);
            ListsOf(result) == l && result.typeStatus == if gone then PartlyParsed else old(result.typeStatus)
  {
    if !r.Found? {
      result.typeStatus := PartlyParsed;
      return;
    }
    var metadata := MetadataOf(t, r.value);
    if metadata !in result.fieldMetadata {
      if |result.fieldMetadata| < MAX_CANDIDATES {
        result.fieldMetadata := result.fieldMetadata + [metadata];
      } else {
        result.typeStatus := PartlyParsed;
      }
    }
    match r.value.mangled
    case Other =>
    case Broken =>
      result.typeStatus := PartlyParsed;
    case Found(mangled) =>
      var fieldType := FieldType(t, r.value.name, mangled);
      if fieldType !in result.fieldTypes {
        if |result.fieldTypes| < MAX_CANDIDATES {
          result.fieldTypes := result.fieldTypes + [fieldType];
        } else {
          result.typeStatus := PartlyParsed;
        }
      }
  }

  lemma RecordsMore(g: Group, p: nat)
    requires p == g.start + RECORD_SIZE * g.count
    ensures RecordsOf(g.(count := g.count + 1)) == RecordsOf(g) + [(g.typeName, p)]
  {
  }

  method ListNext(data: Bytes, result: MachoAnalysisResult, e: Endian, t: string, record: nat, strict: Strict,
                  ascii: Strict, fieldNames: seq<string>, ghost resolve: Records, ghost before: Lists,
                  ghost seen: Seen, ghost g: Group, ghost rest: bool, ghost lost: bool)
    returns (fieldNames': seq<string>, ghost lost': bool)
    requires record + 12 <= |data| && ResolvesRecords(resolve, e, data, strict, ascii)
    requires record == g.start + RECORD_SIZE * g.count && g.typeName == t && result.typeStatus != NotLooked
    requires fieldNames == NamesOf(g, resolve)
    requires Reading(resolve, before)(ListsOf(result), seen + RecordsOf(g), lost)
    requires (result.typeStatus == PartlyParsed) == (rest || lost)
    modifies result`fieldMetadata, result`fieldTypes, result`typeStatus
    ensures fieldNames' == NamesOf(g.(count := g.count + 1), resolve) && result.typeStatus != NotLooked
    ensures Reading(resolve, before)(ListsOf(result), seen + RecordsOf(g.(count := g.count + 1)), lost')
    ensures (result.typeStatus == PartlyParsed) == (rest || lost')
  {
    var r := ReadRecord(data, e, record, strict, ascii, resolve);
    ReadingMore(resolve, before, ListsOf(result), seen + RecordsOf(g), lost, t, record);
    RecordsMore(g, record);
    NamesMore(g, resolve, record, r);
    assert seen + RecordsOf(g) + [(t, record)] == seen + (RecordsOf(g) + [(t, record)]);
    lost' := lost || AfterRecord(ListsOf(result), t, r).1;
    ListRecord(result, t, r);
    fieldNames' := if r.Found? then fieldNames + [r.value.name] else fieldNames;
  }

  /** Reads the records of one type, as far as the budget of records goes. */
  method ReadRecords(data: Bytes, result: MachoAnalysisResult, e: Endian, t: string, start: nat, count: nat,
                     strict: Strict, ascii: Strict, recordsExamined: nat, ghost resolve: Records, ghost before: Lists,
                     ghost seen: Seen, ghost rest: bool, ghost lost: bool)
    returns (examined: nat, fieldNames: seq<string>, ghost g: Group, ghost lost': bool)
    requires start + RECORD_SIZE * count <= |data| && ResolvesRecords(resolve, e, data, strict, ascii)
    requires Reading(resolve, before)(ListsOf(result), seen, lost) && Spent(recordsExamined, |seen|)
    requires (result.typeStatus == PartlyParsed) == (rest || lost) && result.typeStatus != NotLooked
    modifies result`fieldMetadata, result`fieldTypes, result`typeStatus
    ensures g == Group(t, start, Room(|seen|, count)) && Spent(examined, |seen| + g.count)
    ensures Reading(resolve, before)(ListsOf(result), seen + RecordsOf(g), lost') && result.typeStatus != NotLooked
    ensures (result.typeStatus == PartlyParsed) == (rest || g.count < count || lost')
    ensures fieldNames == NamesOf(g, resolve)
  {
    examined, lost' := recordsExamined, lost;
    g := Group(t, start, 0);
    fieldNames := [];
    assert seen + RecordsOf(g) == seen;
    for index := 0 to count
      invariant g == Group(t, start, index) && fieldNames == NamesOf(g, resolve)
      invariant Spent(examined, |seen| + index) && examined == recordsExamined + index
      invariant Reading(resolve, before)(ListsOf(result), seen + RecordsOf(g), lost') && result.typeStatus != NotLooked
      invariant (result.typeStatus == PartlyParsed) == (rest || lost')
    {
      examined := examined + 1;
      if examined > MAX_RECORDS {
        result.typeStatus := PartlyParsed;
        break;
      }
      fieldNames, lost' := ListNext(data, result, e, t, start + index * RECORD_SIZE, strict, ascii, fieldNames,
                                    resolve, before, seen, g, rest, lost');
      g := g.(count := index + 1);
    }
  }

  /** Lists the fields of one type: its records, and its names together. */
  method ListFields(data: Bytes, result: MachoAnalysisResult, e: Endian, t: string, start: nat, count: nat,
                    strict: Strict, ascii: Strict, recordsExamined: nat, ghost resolve: Records, ghost before: Lists,
                    ghost seen: Seen, ghost rest: bool, ghost lost: bool)
    returns (examined: nat, ghost g: Group, ghost lost': bool)
    requires start + RECORD_SIZE * count <= |data| && ResolvesRecords(resolve, e, data, strict, ascii)
    requires Reading(resolve, before)(ListsOf(result), seen, lost) && Spent(recordsExamined, |seen|)
    requires (result.typeStatus == PartlyParsed) == (rest || lost) && result.typeStatus != NotLooked
    modifies result`fieldMetadata, result`fieldTypes, result`typeFields, result`typeStatus
    ensures g == Group(t, start, Room(|seen|, count)) && Spent(examined, |seen| + g.count)
    ensures Reading(resolve, before)(ListsOf(result), seen + RecordsOf(g), lost') && result.typeStatus != NotLooked
    ensures (result.typeStatus == PartlyParsed) == (rest || g.count < count || lost')
    ensures result.typeFields == FieldLists(old(result.typeFields), [g], resolve)
  {
    var fieldNames;
    examined, fieldNames, g, lost' := ReadRecords(data, result, e, t, start, count, strict, ascii, recordsExamined,
                                                  resolve, before, seen, rest, lost);
    ListNames(result, t, fieldNames, resolve, before, seen + RecordsOf(g), g, lost');
  }

  /** The names of the fields of one type, if it has any and there is room. */
  method ListNames(result: MachoAnalysisResult, t: string, fieldNames: seq<string>, ghost resolve: Records,
                   ghost before: Lists, ghost seen: Seen, ghost g: Group, ghost lost: bool)
    requires Reading(resolve, before)(ListsOf(result), seen, lost) && g.typeName == t
    requires fieldNames == NamesOf(g, resolve)
    modifies result`typeFields
    ensures Reading(resolve, before)(ListsOf(result), seen, lost)
    ensures result.typeFields == FieldLists(old(result.typeFields), [g], resolve)
  {
    assert [g][..0] == [];
    if fieldNames != [] && |result.typeFields| < MAX_CANDIDATES {
      FieldsApart(resolve, before, ListsOf(result), result.typeFields + [(t, fieldNames)], seen, lost);
      result.typeFields := result.typeFields + [(t, fieldNames)];
    }
  }

  // ----- all types -----

  /** What entries, type descriptors and records lead to. */
  datatype View = View(
    types: nat -> Resolved<(string, nat)>,
    names: nat -> Resolved<string>,
    recordsAt: nat -> Resolved<(nat, nat)>,
    records: Records)

  function NameOnly(r: Resolved<(string, nat)>): Resolved<string> {
    match r
    case Other => Other
    case Broken => Broken
    case Found(x) => Found(x.0)
  }

  /** The view is that of the file. */
  ghost predicate Shows(v: View, e: Endian, data: Bytes, sections: seq<Section>, strict: Strict, ascii: Strict) {
    && (forall p: nat {:trigger LookUp(p)} :: LookUp(p) && p + 4 <= |data| ==>
          v.types(p) == ResolveType(e, data, p, strict) && v.names(p) == NameOnly(v.types(p)))
    && (forall d: nat {:trigger LookUp(d)} :: LookUp(d) && d + 20 <= |data| ==>
        v.recordsAt(d) == RecordsAt(e, data, sections, d))
    && ResolvesRecords(v.records, e, data, strict, ascii)
  }

  method FindType(data: Bytes, e: Endian, p: nat, strict: Strict, ghost v: View, ghost sections: seq<Section>,
                  ghost ascii: Strict)
    returns (r: Resolved<(string, nat)>)
    requires p + 4 <= |data| && Shows(v, e, data, sections, strict, ascii)
    ensures r == v.types(p) && NameOnly(r) == v.names(p) && (r.Found? ==> r.value.1 + 20 <= |data|)
  {
    assert LookUp(p);
    r := ResolveType(e, data, p, strict);
  }

  method FindRecords(data: Bytes, e: Endian, d: nat, sections: seq<Section>, ghost v: View, ghost strict: Strict,
                     ghost ascii: Strict)
    returns (r: Resolved<(nat, nat)>)
    requires d + 20 <= |data| && Shows(v, e, data, sections, strict, ascii)
    ensures r == v.recordsAt(d) && (r.Found? ==> r.value.0 + RECORD_SIZE * r.value.1 <= |data|)
  {
    assert LookUp(d);
    r := RecordsAt(e, data, sections, d);
  }

  /** All records of the type an entry leads to. */
  ghost function GroupAt(v: View, p: nat): seq<Group> {
    var t := v.types(p);
    if t.Found? && v.recordsAt(t.value.1).Found? then
      [Group(t.value.0, v.recordsAt(t.value.1).value.0, v.recordsAt(t.value.1).value.1)]
    else []
  }

  ghost predicate FieldsBroken(v: View, p: nat) {
    v.types(p).Found? && v.recordsAt(v.types(p).value.1) == Broken
  }

  ghost function GroupsOf(v: View, entries: seq<nat>): seq<Group> {
    if entries == [] then [] else GroupsOf(v, entries[..|entries| - 1]) + GroupAt(v, entries[|entries| - 1])
  }

  ghost function GroupsRead(v: View, entries: seq<nat>): seq<Group> {
    Within(GroupsOf(v, entries))
  }

  /** Field records of the entries that are not even looked at. */
  ghost predicate Missed(v: View, entries: seq<nat>) {
    || |SeenOf(GroupsOf(v, entries))| > MAX_RECORDS
    || AnyFieldsBroken(v, entries)
  }

  ghost predicate AnyFieldsBroken(v: View, entries: seq<nat>) {
    exists p :: p in entries && FieldsBroken(v, p)
  }

  /** The lists are those of the records of the entries, as far as the budget goes. */
  ghost function Fielding(v: View, before: Lists): (Lists, seq<nat>, bool, nat) -> bool {
    (l: Lists, entries: seq<nat>, lost: bool, examined: nat) =>
      && Reading(v.records, before)(l, SeenOf(GroupsRead(v, entries)), lost)
      && l.fields == FieldLists(before.fields, GroupsRead(v, entries), v.records)
      && Spent(examined, |SeenOf(GroupsRead(v, entries))|)
  }

  lemma FieldingParts(v: View, before: Lists, l: Lists, entries: seq<nat>, lost: bool, examined: nat)
    requires Fielding(v, before)(l, entries, lost, examined)
    ensures Reading(v.records, before)(l, SeenOf(GroupsRead(v, entries)), lost)
    ensures l.fields == FieldLists(before.fields, GroupsRead(v, entries), v.records)
    ensures Spent(examined, |SeenOf(GroupsRead(v, entries))|)
  {
  }

  lemma MakeFielding(v: View, before: Lists, l: Lists, entries: seq<nat>, groups: seq<Group>, lost: bool, examined: nat)
    requires groups == GroupsRead(v, entries)
    requires Reading(v.records, before)(l, SeenOf(groups), lost)
    requires l.fields == FieldLists(before.fields, groups, v.records)
    requires Spent(examined, |SeenOf(groups)|)
    ensures Fielding(v, before)(l, entries, lost, examined)
  {
  }

  lemma GroupsMore(v: View, entries: seq<nat>, p: nat)
    ensures GroupsOf(v, entries + [p]) == GroupsOf(v, entries) + GroupAt(v, p)
  {
    assert (entries + [p])[..|entries|] == entries;
  }

  lemma AnyBroken(v: View, entries: seq<nat>, p: nat)
    ensures AnyFieldsBroken(v, entries + [p]) <==> AnyFieldsBroken(v, entries) || FieldsBroken(v, p)
  {
    assert forall q :: q in entries + [p] <==> q in entries || q == p;
  }

  lemma WithoutRecords(v: View, before: Lists, l: Lists, entries: seq<nat>, lost: bool, examined: nat, p: nat)
    requires Fielding(v, before)(l, entries, lost, examined) && GroupAt(v, p) == []
    ensures Fielding(v, before)(l, entries + [p], lost, examined)
    ensures Missed(v, entries + [p]) == (Missed(v, entries) || FieldsBroken(v, p))
  {
    GroupsMore(v, entries, p);
    assert GroupsOf(v, entries) + [] == GroupsOf(v, entries);
    FieldingParts(v, before, l, entries, lost, examined);
    MakeFielding(v, before, l, entries + [p], GroupsRead(v, entries), lost, examined);
    AnyBroken(v, entries, p);
  }

  lemma WithRecords(v: View, before: Lists, l: Lists, l': Lists, entries: seq<nat>, lost: bool, examined: nat, p: nat,
                    g: Group, lost': bool, examined': nat)
    requires Fielding(v, before)(l, entries, lost, examined) && |GroupAt(v, p)| == 1
    requires g == GroupAt(v, p)[0].(count := Room(|SeenOf(GroupsRead(v, entries))|, GroupAt(v, p)[0].count))
    requires Reading(v.records, before)(l', SeenOf(GroupsRead(v, entries)) + RecordsOf(g), lost')
    requires l'.fields == FieldLists(l.fields, [g], v.records)
    requires Spent(examined', |SeenOf(GroupsRead(v, entries))| + g.count)
    ensures Fielding(v, before)(l', entries + [p], lost', examined')
  {
    var groups := GroupsRead(v, entries);
    GroupTaken(v, entries, p, g);
    SeenMore(groups, g);
    FieldingParts(v, before, l, entries, lost, examined);
    MoreLists(before.fields, l.fields, groups, g, v.records);
    MakeFielding(v, before, l', entries + [p], groups + [g], lost', examined');
  }

  lemma GroupTaken(v: View, entries: seq<nat>, p: nat, g: Group)
    requires |GroupAt(v, p)| == 1
    requires g == GroupAt(v, p)[0].(count := Room(|SeenOf(GroupsRead(v, entries))|, GroupAt(v, p)[0].count))
    ensures GroupsRead(v, entries + [p]) == GroupsRead(v, entries) + [g]
  {
    GroupsMore(v, entries, p);
    assert GroupAt(v, p) == [GroupAt(v, p)[0]];
    WithinMore(GroupsOf(v, entries), GroupAt(v, p)[0]);
  }

  /** A type with fewer records read than it has is one beyond the budget. */
  lemma MissedMore(v: View, entries: seq<nat>, p: nat)
    requires |GroupAt(v, p)| == 1
    ensures var full := GroupAt(v, p)[0].count;
            Missed(v, entries + [p]) ==
              (Missed(v, entries) || Room(|SeenOf(GroupsRead(v, entries))|, full) < full)
  {
    var groups, g := GroupsOf(v, entries), GroupAt(v, p)[0];
    GroupsMore(v, entries, p);
    assert GroupAt(v, p) == [g];
    AnyBroken(v, entries, p);
    SeenMore(groups, g);
    FirstRecordsAreRead(groups);
  }

  lemma MoreLists(before: seq<(string, seq<string>)>, now: seq<(string, seq<string>)>, groups: seq<Group>, g: Group,
                  resolve: Records)
    requires now == FieldLists(before, groups, resolve)
    ensures FieldLists(before, groups + [g], resolve) == FieldLists(now, [g], resolve)
  {
    assert (groups + [g])[..|groups|] == groups && [g][..0] == [];
  }

  /** The status is partial exactly if something else was in the way, or records were missed. */
  ghost predicate Consistent(v: View, entries: seq<nat>, status: MetadataStatus, other: bool) {
    status != NotLooked && (status == PartlyParsed) == (other || Missed(v, entries))
  }

  /** The names after these entries have been followed, up to the cap. */
  ghost function NamesAfter(names: seq<string>, entries: seq<nat>, resolve: nat -> Resolved<string>): seq<string> {
    if entries == [] then names
    else
      var n := |entries| - 1;
      var earlier, r := NamesAfter(names, entries[..n], resolve), resolve(entries[n]);
      if r.Found? then WithCapped(earlier, r.value) else earlier
  }

  lemma NamesAfterMore(names: seq<string>, entries: seq<nat>, p: nat, resolve: nat -> Resolved<string>)
    ensures var earlier := NamesAfter(names, entries, resolve);
            NamesAfter(names, entries + [p], resolve) ==
            if resolve(p).Found? then WithCapped(earlier, resolve(p).value) else earlier
  {
    assert (entries + [p])[..|entries|] == entries;
  }

  lemma {:induction false} NamesAreListed(names: seq<string>, entries: seq<nat>, resolve: nat -> Resolved<string>)
    ensures Listed(names, NamesAfter(names, entries, resolve), entries, resolve)
  {
    if entries != [] {
      var n := |entries| - 1;
      NamesAreListed(names, entries[..n], resolve);
      ListedMore(names, NamesAfter(names, entries[..n], resolve), entries[..n], entries[n], resolve);
      assert entries[..n] + [entries[n]] == entries;
    }
  }

  /** Names, lists and status are those of the entries met so far; bad says that a section could not be read. */
  ghost function Following(v: View, names: seq<string>, before: Lists):
    (seq<nat>, bool, seq<string>, Lists, MetadataStatus, bool, nat) -> bool
  {
    (entries: seq<nat>, bad: bool, typeNames: seq<string>, l: Lists, status: MetadataStatus, lost: bool,
      examined: nat) =>
      && typeNames == NamesAfter(names, entries, v.names)
      && Fielding(v, before)(l, entries, lost, examined)
      && Consistent(v, entries, status, bad || BrokenEntry(entries, v.names) || lost)
  }

  lemma FollowingParts(v: View, names: seq<string>, before: Lists, entries: seq<nat>, bad: bool,
                       typeNames: seq<string>, l: Lists, status: MetadataStatus, lost: bool, examined: nat)
    requires Following(v, names, before)(entries, bad, typeNames, l, status, lost, examined)
    ensures typeNames == NamesAfter(names, entries, v.names)
    ensures Fielding(v, before)(l, entries, lost, examined)
    ensures Consistent(v, entries, status, bad || BrokenEntry(entries, v.names) || lost)
  {
  }

  lemma FollowOn(v: View, names: seq<string>, before: Lists, entries: seq<nat>, bad: bool, typeNames: seq<string>,
                 p: nat, typeNames': seq<string>, l: Lists, status: MetadataStatus, lost: bool, examined: nat)
    requires typeNames == NamesAfter(names, entries, v.names)
    requires typeNames' == if v.names(p).Found? then WithCapped(typeNames, v.names(p).value) else typeNames
    requires Fielding(v, before)(l, entries + [p], lost, examined)
    requires Consistent(v, entries + [p], status, bad || BrokenEntry(entries, v.names) || v.names(p) == Broken || lost)
    ensures Following(v, names, before)(entries + [p], bad, typeNames', l, status, lost, examined)
  {
    NamesAfterMore(names, entries, p, v.names);
    BrokenMore(entries, p, v.names);
  }

  lemma MakeFollowing(v: View, names: seq<string>, before: Lists, entries: seq<nat>, bad: bool,
                      typeNames: seq<string>, l: Lists, status: MetadataStatus, lost: bool, examined: nat)
    requires typeNames == NamesAfter(names, entries, v.names)
    requires Fielding(v, before)(l, entries, lost, examined)
    requires Consistent(v, entries, status, bad || BrokenEntry(entries, v.names) || lost)
    ensures Following(v, names, before)(entries, bad, typeNames, l, status, lost, examined)
  {
  }

  lemma FollowingStarts(v: View, names: seq<string>, before: Lists)
    ensures Following(v, names, before)([], false, names, before, Parsed, false, 0)
  {
    assert GroupsRead(v, []) == [] && SeenOf([]) == [];
    MakeFielding(v, before, before, [], [], false, 0);
    assert !Missed(v, []);
    MakeFollowing(v, names, before, [], false, names, before, Parsed, false, 0);
  }

  lemma FollowingBad(v: View, names: seq<string>, before: Lists, entries: seq<nat>, bad: bool, typeNames: seq<string>,
                     l: Lists, status: MetadataStatus, lost: bool, examined: nat)
    requires Following(v, names, before)(entries, bad, typeNames, l, status, lost, examined)
    ensures Following(v, names, before)(entries, true, typeNames, l, PartlyParsed, lost, examined)
  {
    FollowingParts(v, names, before, entries, bad, typeNames, l, status, lost, examined);
    MakeFollowing(v, names, before, entries, true, typeNames, l, PartlyParsed, lost, examined);
  }

  /** One type entry: its name, and its field records. */
  method TypeEntry(data: Bytes, result: MachoAnalysisResult, e: Endian, p: nat, strict: Strict, ascii: Strict,
                   recordsExamined: nat, ghost v: View, ghost names: seq<string>, ghost before: Lists,
                   ghost entries: seq<nat>, ghost bad: bool, ghost lost: bool)
    returns (examined: nat, ghost lost': bool)
    requires p + 4 <= |data| && Shows(v, e, data, result.sections, strict, ascii)
    requires Following(v, names, before)(entries, bad, result.typeNames, ListsOf(result), result.typeStatus, lost,
                                         recordsExamined)
    modifies result`typeNames, result`fieldMetadata, result`fieldTypes, result`typeFields, result`typeStatus
    ensures Following(v, names, before)(entries + [p], bad, result.typeNames, ListsOf(result), result.typeStatus,
                                        lost', examined)
  {
    FollowingParts(v, names, before, entries, bad, result.typeNames, ListsOf(result), result.typeStatus, lost,
                   recordsExamined);
    ghost var trouble := bad || BrokenEntry(entries, v.names);
    examined, lost' := EntryFields(data, result, e, p, strict, ascii, recordsExamined, v, before, entries, trouble,
                                   lost);
    FollowOn(v, names, before, entries, bad, old(result.typeNames), p, result.typeNames, ListsOf(result),
             result.typeStatus, lost', examined);
  }

  method EntryFields(data: Bytes, result: MachoAnalysisResult, e: Endian, p: nat, strict: Strict, ascii: Strict,
                     recordsExamined: nat, ghost v: View, ghost before: Lists, ghost entries: seq<nat>,
                     ghost trouble: bool, ghost lost: bool)
    returns (examined: nat, ghost lost': bool)
    requires p + 4 <= |data| && Shows(v, e, data, result.sections, strict, ascii)
    requires Fielding(v, before)(ListsOf(result), entries, lost, recordsExamined)
    requires Consistent(v, entries, result.typeStatus, trouble || lost)
    modifies result`typeNames, result`fieldMetadata, result`fieldTypes, result`typeFields, result`typeStatus
    ensures result.typeNames == if v.names(p).Found? then WithCapped(old(result.typeNames), v.names(p).value)
            else old(result.typeNames)
    ensures Fielding(v, before)(ListsOf(result), entries + [p], lost', examined)
    ensures Consistent(v, entries + [p], result.typeStatus, trouble || v.names(p) == Broken || lost')
  {
    examined, lost' := recordsExamined, lost;
    var t := FindType(data, e, p, strict, v, result.sections, ascii);
    if !t.Found? {
      WithoutRecords(v, before, ListsOf(result), entries, lost, examined, p);
      if t == Broken {
        result.typeStatus := PartlyParsed;
      }
      return;
    }
    var (name, d) := t.value;
    result.typeNames := WithCapped(result.typeNames, name);
    var at := FindRecords(data, e, d, result.sections, v, strict, ascii);
    if !at.Found? {
      WithoutRecords(v, before, ListsOf(result), entries, lost, examined, p);
      if at == Broken {
        result.typeStatus := PartlyParsed;
      }
      return;
    }
    ghost var l, g, seen := ListsOf(result), Group(name, 0, 0), SeenOf(GroupsRead(v, entries));
    FieldingParts(v, before, l, entries, lost, recordsExamined);
    MissedMore(v, entries, p);
    examined, g, lost' := ListFields(data, result, e, name, at.value.0, at.value.1, strict, ascii, recordsExamined,
                                     v.records, before, seen, trouble || Missed(v, entries), lost);
    WithRecords(v, before, l, ListsOf(result), entries, lost, recordsExamined, p, g, lost', examined);
  }

  /** The lists after the records of these entries have been read, as far as the budget goes. */
  ghost function ListsAfter(v: View, before: Lists, entries: seq<nat>): Lists {
    Listing(v.records, before, SeenOf(GroupsRead(v, entries))).0.(
      fields := FieldLists(before.fields, GroupsRead(v, entries), v.records))
  }

  /** A record of these entries that is missed, or read and then lost. */
  ghost predicate SomethingLost(v: View, before: Lists, entries: seq<nat>) {
    Missed(v, entries) || Listing(v.records, before, SeenOf(GroupsRead(v, entries))).1
  }

  ghost function StatusAfter(data: Bytes, types: seq<Section>, v: View, before: Lists): MetadataStatus {
    if EntryTrouble(data, types, v.names) || SomethingLost(v, before, Examined(Entries(data, types))) then PartlyParsed
    else Parsed
  }

  /** The outcome for all types. */
  ghost function TypesInventoried(data: Bytes, types: seq<Section>, v: View, names: seq<string>, before: Lists):
    (seq<string>, Lists, MetadataStatus) -> bool
  {
    (typeNames: seq<string>, l: Lists, status: MetadataStatus) =>
      && typeNames == NamesAfter(names, Examined(Entries(data, types)), v.names)
      && l == ListsAfter(v, before, Examined(Entries(data, types)))
      && status == StatusAfter(data, types, v, before)
  }

  lemma InventoriedParts(data: Bytes, types: seq<Section>, v: View, names: seq<string>, before: Lists,
                         typeNames: seq<string>, l: Lists, status: MetadataStatus)
    requires TypesInventoried(data, types, v, names, before)(typeNames, l, status)
    ensures typeNames == NamesAfter(names, Examined(Entries(data, types)), v.names)
    ensures l == ListsAfter(v, before, Examined(Entries(data, types))) && status == StatusAfter(data, types, v, before)
  {
  }

  lemma FieldingIsAll(v: View, before: Lists, l: Lists, entries: seq<nat>, lost: bool, examined: nat)
    requires Fielding(v, before)(l, entries, lost, examined)
    ensures l == ListsAfter(v, before, entries)
    ensures SomethingLost(v, before, entries) == (Missed(v, entries) || lost)
  {
    FieldingParts(v, before, l, entries, lost, examined);
    assert Listing(v.records, before, SeenOf(GroupsRead(v, entries))) == (l.(fields := before.fields), lost);
  }

  lemma FollowedAll(data: Bytes, types: seq<Section>, v: View, names: seq<string>, before: Lists, bad: bool,
                    typeNames: seq<string>, l: Lists, status: MetadataStatus, lost: bool, examined: nat,
                    entries: seq<nat>)
    requires entries == Examined(Entries(data, types))
    requires EntryTrouble(data, types, v.names) == (bad || BrokenEntry(entries, v.names))
    requires Following(v, names, before)(entries, bad, typeNames, l, status, lost, examined)
    ensures TypesInventoried(data, types, v, names, before)(typeNames, l, status)
  {
    FollowingParts(v, names, before, entries, bad, typeNames, l, status, lost, examined);
    FieldingIsAll(v, before, l, entries, lost, examined);
    assert status == StatusAfter(data, types, v, before);
  }

  /** One entry too many ends the loops. */
  lemma CutIsExamined(data: Bytes, types: seq<Section>, k: nat, i: nat)
    requires k < |types| && Readable(data, types[k]) && i < types[k].size / 4
    requires |Done(data, types, k, i)| == MAX_ENTRIES
    ensures Done(data, types, k, i) == Examined(Entries(data, types)) && |Entries(data, types)| > MAX_ENTRIES
  {
    EntriesMore(data, types, k);
    EntriesPrefix(data, types, k + 1);
    var done, own := Done(data, types, k, i), EntriesOf(types[k]);
    assert done == (Entries(data, types[..k]) + own)[..MAX_ENTRIES];
    assert done == Entries(data, types)[..MAX_ENTRIES];
  }

  lemma DoneIsExamined<T>(data: Bytes, types: seq<Section>, resolve: nat -> Resolved<T>)
    requires |Done(data, types, |types|, 0)| <= MAX_ENTRIES
    ensures Done(data, types, |types|, 0) == Examined(Entries(data, types))
    ensures EntryTrouble(data, types, resolve) ==
            (BadSection(data, types[..|types|]) || BrokenEntry(Done(data, types, |types|, 0), resolve))
  {
    assert types[..|types|] == types;
    assert Done(data, types, |types|, 0) == Entries(data, types);
  }

  lemma NothingDone(data: Bytes, types: seq<Section>, k: nat)
    requires k < |types| && !Readable(data, types[k])
    ensures Done(data, types, k + 1, 0) == Done(data, types, k, 0)
  {
    EntriesMore(data, types, k);
  }

  lemma SectionDone(data: Bytes, types: seq<Section>, k: nat)
    requires k < |types| && Readable(data, types[k])
    ensures Done(data, types, k + 1, 0) == Done(data, types, k, types[k].size / 4)
  {
    EntriesMore(data, types, k);
    assert EntriesOf(types[k])[..types[k].size / 4] == EntriesOf(types[k]);
  }

  method TypeSection(data: Bytes, result: MachoAnalysisResult, e: Endian, strict: Strict, ascii: Strict,
                     section: Section, examined: nat, recordsExamined: nat, ghost v: View, ghost names: seq<string>,
                     ghost before: Lists, ghost types: seq<Section>, ghost k: nat, ghost bad: bool, ghost lost: bool)
    returns (examined': nat, recordsExamined': nat, stop: bool, ghost lost': bool)
    requires Shows(v, e, data, result.sections, strict, ascii)
    requires k < |types| && types[k] == section && Readable(data, section)
             && examined == |Done(data, types, k, 0)| <= MAX_ENTRIES
    requires Following(v, names, before)(Done(data, types, k, 0), bad, result.typeNames, ListsOf(result),
                                         result.typeStatus, lost, recordsExamined)
    modifies result`typeNames, result`fieldMetadata, result`fieldTypes, result`typeFields, result`typeStatus
    ensures !stop ==> examined' == |Done(data, types, k + 1, 0)| <= MAX_ENTRIES
    ensures !stop ==> Following(v, names, before)(Done(data, types, k + 1, 0), bad, result.typeNames, ListsOf(result),
                                                  result.typeStatus, lost', recordsExamined')
    ensures stop ==> TypesInventoried(data, types, v, names, before)(result.typeNames, ListsOf(result),
                                                                     result.typeStatus)
  {
    DoneSize(data, types, k);
    examined', recordsExamined', lost' := examined, recordsExamined, lost;
    var count := section.size / 4;
    for i := 0 to count
      invariant examined' == |Done(data, types, k, i)| == examined + i <= MAX_ENTRIES
      invariant Following(v, names, before)(Done(data, types, k, i), bad, result.typeNames, ListsOf(result),
                                            result.typeStatus, lost', recordsExamined')
    {
      if examined' + 1 > MAX_ENTRIES {
        CutIsExamined(data, types, k, i);
        FollowingBad(v, names, before, Done(data, types, k, i), bad, result.typeNames, ListsOf(result),
                     result.typeStatus, lost', recordsExamined');
        FollowedAll(data, types, v, names, before, true, result.typeNames, ListsOf(result), PartlyParsed, lost',
                    recordsExamined', Done(data, types, k, i));
        result.typeStatus := PartlyParsed;
        return examined', recordsExamined', true, lost';
      }
      examined' := examined' + 1;
      recordsExamined', lost' := TypeEntry(data, result, e, section.offset + 4 * i, strict, ascii, recordsExamined', v,
                                           names, before, Done(data, types, k, i), bad, lost');
      DoneMore(data, types, k, i);
    }
    SectionDone(data, types, k);
    stop := false;
  }

  /** The names and fields of the types whose descriptors the entries lead to. */
  method ExtractSwiftTypeNames(data: Bytes, result: MachoAnalysisResult, e: Endian, strict: Strict, ascii: Strict,
                               ghost v: View)
    requires Shows(v, e, data, result.sections, strict, ascii)
    modifies result`typeNames, result`fieldMetadata, result`fieldTypes, result`typeFields, result`typeStatus
    ensures var types := SectionsNamed(result.sections, "__swift5_types");
            if types == [] then
              result.typeNames == old(result.typeNames) && ListsOf(result) == old(ListsOf(result))
                  && result.typeStatus == old(result.typeStatus)
            else
              TypesInventoried(data, types, v, old(result.typeNames), old(ListsOf(result)))(
                result.typeNames, ListsOf(result), result.typeStatus)
  {
    var types := SectionsNamed(result.sections, "__swift5_types");
    if types == [] {
      return;
    }
    ghost var names, before, bad, lost := result.typeNames, ListsOf(result), false, false;
    result.typeStatus := Parsed;
    var examined, recordsExamined := 0, 0;
    FollowingStarts(v, names, before);
    assert types[..0] == [] && Done(data, types, 0, 0) == [];
    for k := 0 to |types|
      invariant examined == |Done(data, types, k, 0)| <= MAX_ENTRIES && bad == BadSection(data, types[..k])
      invariant Following(v, names, before)(Done(data, types, k, 0), bad, result.typeNames, ListsOf(result),
                                            result.typeStatus, lost, recordsExamined)
    {
      BadMore(data, types, k);
      if !Readable(data, types[k]) {
        NothingDone(data, types, k);
        FollowingBad(v, names, before, Done(data, types, k, 0), bad, result.typeNames, ListsOf(result),
                     result.typeStatus, lost, recordsExamined);
        result.typeStatus := PartlyParsed;
        bad := true;
        continue;
      }
      var stop;
      examined, recordsExamined, stop, lost := TypeSection(
        data, result, e, strict, ascii, types[k], examined, recordsExamined, v, names, before, types, k, bad, lost);
      if stop {
        return;
      }
    }
    DoneIsExamined(data, types, v.names);
    FollowedAll(data, types, v, names, before, bad, result.typeNames, ListsOf(result), result.typeStatus, lost,
                recordsExamined, Done(data, types, |types|, 0));
  }

  // ----- what the outcome means -----

  lemma {:induction false} SeenHasGroup(groups: seq<Group>, j: nat, i: nat)
    requires j < |groups| && i < groups[j].count
    ensures (groups[j].typeName, RecordAt(groups[j], i)) in SeenOf(groups)
    decreases |groups|
  {
    var n := |groups| - 1;
    if j < n {
      assert groups[..n][j] == groups[j];
      SeenHasGroup(groups[..n], j, i);
    } else {
      assert RecordsOf(groups[n])[i] == (groups[n].typeName, RecordAt(groups[n], i));
    }
  }

  lemma {:induction false} GroupIsThere(v: View, entries: seq<nat>, p: nat) returns (j: nat)
    requires p in entries && GroupAt(v, p) != []
    ensures j < |GroupsOf(v, entries)| && GroupsOf(v, entries)[j] == GroupAt(v, p)[0]
    decreases |entries|
  {
    var n := |entries| - 1;
    if entries[n] == p {
      j := |GroupsOf(v, entries[..n])|;
    } else {
      assert p in entries[..n];
      j := GroupIsThere(v, entries[..n], p);
    }
  }

  lemma NothingMissing(v: View, before: Lists, entries: seq<nat>)
    requires !SomethingLost(v, before, entries)
    ensures AllSeenListed(ListsAfter(v, before, entries), SeenOf(GroupsOf(v, entries)), v.records)
  {
    var groups := GroupsOf(v, entries);
    var seen := SeenOf(groups);
    FirstRecordsAreRead(groups);
    assert seen[..|seen|] == seen;
    LosesExactly(v.records, before, seen);
    SameListed(Listing(v.records, before, seen).0, ListsAfter(v, before, entries), seen, v.records);
  }

  lemma AllListed(resolve: Records, l: Lists, seen: Seen, x: (string, nat))
    requires AllSeenListed(l, seen, resolve) && x in seen
    ensures RecordListed(l, x.0, resolve(x.1))
  {
  }

  ghost predicate AllRecordsListed(l: Lists, g: Group, records: Records) {
    forall i :: 0 <= i < g.count ==> RecordListed(l, g.typeName, records(RecordAt(g, i)))
  }

  lemma GroupIsListed(groups: seq<Group>, l: Lists, resolve: Records, j: nat)
    requires j < |groups| && AllSeenListed(l, SeenOf(groups), resolve)
    ensures AllRecordsListed(l, groups[j], resolve)
  {
    var g := groups[j];
    forall i | 0 <= i < g.count ensures RecordListed(l, g.typeName, resolve(RecordAt(g, i))) {
      OneIsListed(groups, l, SeenOf(groups), resolve, j, i);
    }
  }

  lemma OneIsListed(groups: seq<Group>, l: Lists, seen: Seen, resolve: Records, j: nat, i: nat)
    requires j < |groups| && i < groups[j].count && seen == SeenOf(groups) && AllSeenListed(l, seen, resolve)
    ensures RecordListed(l, groups[j].typeName, resolve(RecordAt(groups[j], i)))
  {
    SeenHasGroup(groups, j, i);
    AllListed(resolve, l, seen, (groups[j].typeName, RecordAt(groups[j], i)));
  }

  /** With nothing lost, every record of every type that an entry leads to is in the lists. */
  lemma EveryRecordIsListed(v: View, l: Lists, entries: seq<nat>, p: nat, g: Group)
    requires AllSeenListed(l, SeenOf(GroupsOf(v, entries)), v.records)
    requires p in entries && g in GroupAt(v, p)
    ensures AllRecordsListed(l, g, v.records)
  {
    var j := GroupIsThere(v, entries, p);
    GroupIsListed(GroupsOf(v, entries), l, v.records, j);
  }

  /** The i-th record of the type entry p leads to. */
  ghost predicate IsRecord(v: View, entries: seq<nat>, p: nat, i: nat, x: (string, nat)) {
    && p in entries && GroupAt(v, p) != [] && i < GroupAt(v, p)[0].count
    && x == (GroupAt(v, p)[0].typeName, GroupAt(v, p)[0].start + RECORD_SIZE * i)
  }

  lemma InLast(v: View, g: Group, entries: seq<nat>, x: (string, nat)) returns (i: nat)
    requires entries != [] && x in RecordsOf(g) && GroupAt(v, entries[|entries| - 1]) != []
    requires var full := GroupAt(v, entries[|entries| - 1])[0];
             g.typeName == full.typeName && g.start == full.start && g.count <= full.count
    ensures IsRecord(v, entries, entries[|entries| - 1], i, x)
  {
    i :| 0 <= i < g.count && RecordsOf(g)[i] == x;
  }

  lemma {:induction false} SeenComesFrom(v: View, groups: seq<Group>, entries: seq<nat>, x: (string, nat))
      returns (p: nat, i: nat)
    requires CutShort(groups, GroupsOf(v, entries)) && x in SeenOf(groups)
    ensures IsRecord(v, entries, p, i, x)
    decreases |entries|
  {
    var n := |entries| - 1;
    var last := entries[n];
    var full, m := GroupsOf(v, entries), |groups| - 1;
    if GroupAt(v, last) == [] {
      assert full == GroupsOf(v, entries[..n]);
      p, i := SeenComesFrom(v, groups, entries[..n], x);
    } else {
      assert full[..m] == GroupsOf(v, entries[..n]) && full[m] == GroupAt(v, last)[0];
      if x in RecordsOf(groups[m]) {
        i := InLast(v, groups[m], entries, x);
        p := last;
      } else {
        p, i := SeenComesFrom(v, groups[..m], entries[..n], x);
      }
    }
  }

  /** The metadata of the i-th record of the type entry p leads to. */
  ghost predicate IsMetadata(v: View, entries: seq<nat>, p: nat, i: nat, m: FieldMetadata) {
    exists at :: IsRecord(v, entries, p, i, (m.typeName, at)) && v.records(at).Found?
        && m == MetadataOf(m.typeName, v.records(at).value)
  }

  /** Whatever was lost, new field metadata comes from a record of a type that an entry leads to. */
  lemma MetadataIsGrounded(v: View, before: Lists, entries: seq<nat>, m: FieldMetadata)
    requires m in ListsAfter(v, before, entries).metadata && m !in before.metadata
    ensures exists p, i :: IsMetadata(v, entries, p, i, m)
  {
    var seen := SeenOf(GroupsRead(v, entries));
    WithinCuts(GroupsOf(v, entries));
    ListingHolds(v.records, before, seen);
    assert MetadataFrom(m, seen, v.records);
    var k :| 0 <= k < |seen| && v.records(seen[k].1).Found? && m == MetadataOf(seen[k].0, v.records(seen[k].1).value);
    var p, i := SeenComesFrom(v, GroupsRead(v, entries), entries, seen[k]);
    assert IsMetadata(v, entries, p, i, m);
  }

  /** The first ten thousand of the field records of all types that the entries lead to. */
  ghost function FirstRecords(v: View, entries: seq<nat>): Seen {
    var all := SeenOf(GroupsOf(v, entries));
    all[..Less(|all|, MAX_RECORDS)]
  }

  /**
   The status is partial exactly if there was trouble with an entry, if a type has its field descriptor broken, if there
   are more than ten thousand records, or if one of the first ten thousand is not listed with all it says.
   */
  lemma PartialExactly(data: Bytes, types: seq<Section>, v: View, names: seq<string>, before: Lists,
                       typeNames: seq<string>, l: Lists, status: MetadataStatus)
    requires TypesInventoried(data, types, v, names, before)(typeNames, l, status)
    ensures var entries := Examined(Entries(data, types));
            status == PartlyParsed <==>
              || EntryTrouble(data, types, v.names) || AnyFieldsBroken(v, entries)
              || |SeenOf(GroupsOf(v, entries))| > MAX_RECORDS
              || !AllSeenListed(l, FirstRecords(v, entries), v.records)
  {
    InventoriedParts(data, types, v, names, before, typeNames, l, status);
    var entries := Examined(Entries(data, types));
    var first := FirstRecords(v, entries);
    var listed := Listing(v.records, before, first).0;
    FirstRecordsAreRead(GroupsOf(v, entries));
    LosesExactly(v.records, before, first);
    if AllSeenListed(l, first, v.records) {
      SameListed(l, listed, first, v.records);
    } else if AllSeenListed(listed, first, v.records) {
      SameListed(listed, l, first, v.records);
    }
    assert status == StatusAfter(data, types, v, before);
  }

  /**
   A status of parsed means that every entry of every type section was followed, that every name found is listed unless
   the list is full, and that every field record of every type is listed with all it says.
   */
  lemma ParsedMeansComplete(data: Bytes, types: seq<Section>, v: View, names: seq<string>, before: Lists,
                            typeNames: seq<string>, l: Lists, p: nat)
    requires TypesInventoried(data, types, v, names, before)(typeNames, l, Parsed)
    ensures forall s :: s in types ==> Readable(data, s)
    ensures p in Entries(data, types) ==>
              && v.names(p) != Broken && !FieldsBroken(v, p)
              && (v.names(p).Found? ==> v.names(p).value in typeNames || |typeNames| >= MAX_CANDIDATES)
              && forall g :: g in GroupAt(v, p) ==> AllRecordsListed(l, g, v.records)
  {
    InventoriedParts(data, types, v, names, before, typeNames, l, Parsed);
    assert !EntryTrouble(data, types, v.names);
    NamesAreListed(names, Examined(Entries(data, types)), v.names);
    assert Inventoried(data, types, v.names, names)(typeNames, false);
    InventoryIsClean(data, types, v.names, names, typeNames);
    if p in Entries(data, types) {
      NothingMissing(v, before, Entries(data, types));
      forall g | g in GroupAt(v, p) ensures AllRecordsListed(l, g, v.records) {
        EveryRecordIsListed(v, l, Entries(data, types), p, g);
      }
    }
  }

  lemma InventoryIsClean<T>(data: Bytes, sections: seq<Section>, resolve: nat -> Resolved<T>, before: seq<T>,
                            after: seq<T>)
    requires Inventoried(data, sections, resolve, before)(after, false)
    ensures Examined(Entries(data, sections)) == Entries(data, sections)
    ensures forall s :: s in sections ==> Readable(data, s)
    ensures forall p :: p in Entries(data, sections) ==>
              resolve(p) != Broken && (resolve(p).Found? ==> resolve(p).value in after || |after| >= MAX_CANDIDATES)
  {
  }
}
