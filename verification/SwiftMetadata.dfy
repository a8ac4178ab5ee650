/**
 Names reached from Swift metadata sections by chasing relative offsets taken from the file. Whatever the bytes say,
 every read is in range, every listed name is one the file leads to, and a status of parsed means that nothing was
 missed.
 */
module SwiftMetadata {
  import opened Wrappers
  import opened LittleEndian
  import opened MachO

  const MAX_ENTRIES: nat := 10000
  const MAX_CANDIDATES: nat := 1000

  /** What a chain of offsets leads to: something else, nothing that can be followed, or what was looked for. */
  datatype Resolved<T> = Other | Broken | Found(value: T)

  type Strict = Bytes -> Option<string>

  /** The bytes up to a NUL less than 256 bytes away. */
  function CStringAt(data: Bytes, at: int): (r: Option<Bytes>)
    ensures r.Some? ==> 0 <= at && at + |r.value| < |data| && |r.value| < 256
    ensures r.Some? ==>
                data[at..at + |r.value|] == r.value && data[at + |r.value|] == 0
                && forall k :: 0 <= k < |r.value| ==> r.value[k] != 0
    ensures r == None <==> at < 0 || at >= |data| || forall k :: at <= k < at + 256 && k < |data| ==> data[k] != 0
  {
    if at < 0 || at >= |data| then None
    else
      var limit := if at + 256 < |data| then at + 256 else |data|;
      var end := NulFrom(data[..limit], at);
      assert forall k :: at <= k < limit ==> data[..limit][k] == data[k];
      if end == limit then None else Some(data[at..end])
  }

  predicate Printable(s: string) {
    forall i :: 0 <= i < |s| ==> ' ' <= s[i] && s[i] != '\U{7F}'
  }

  predicate Graphic(s: string) {
    forall i :: 0 <= i < |s| ==> '!' <= s[i] <= '~'
  }

  /** Where the relative pointer at p leads. */
  function Target(e: Endian, data: Bytes, p: nat): int
    requires p + 4 <= |data|
  {
    p + I32At(e, data, p)
  }

  predicate Indirect(e: Endian, data: Bytes, p: nat)
    requires p + 4 <= |data|
  {
    I32At(e, data, p) % 2 != 0
  }

  function KindOf(e: Endian, data: Bytes, descriptor: nat): nat
    requires descriptor + 4 <= |data|
  {
    U32At(e, data, descriptor) % 32
  }

  const NOMINAL_KINDS: set<nat> := {16, 17, 18}

  /** A type entry: the name of a class, structure or enumeration and its descriptor. */
  function ResolveType(e: Endian, data: Bytes, entry: nat, strict: Strict): (r: Resolved<(string, nat)>)
    requires entry + 4 <= |data|
    ensures r.Found? ==> r.value.1 + 20 <= |data|
  {
    var d := Target(e, data, entry);
    if Indirect(e, data, entry) || d < 0 || d > |data| - 20 then Broken
    else if KindOf(e, data, d) !in NOMINAL_KINDS then Other
    else
      var raw := CStringAt(data, Target(e, data, d + 8));
      if raw == None then Broken
      else if raw.value == [] then Other
      else if strict(raw.value) == None || !Printable(strict(raw.value).value) then Broken
      else Found((strict(raw.value).value, d))
  }

  function ResolveProtocol(e: Endian, data: Bytes, entry: nat, strict: Strict): Resolved<string>
    requires entry + 4 <= |data|
  {
    var d := Target(e, data, entry);
    if Indirect(e, data, entry) || d < 0 || d > |data| - 24 then Broken
    else if KindOf(e, data, d) != 3 then Other
    else
      var raw := CStringAt(data, Target(e, data, d + 8));
      if raw == None || strict(raw.value) == None then Broken
      else
        var name := strict(raw.value).value;
        if name == "" || !Printable(name) then Broken else Found(name)
  }

  function DescriptorName(e: Endian, data: Bytes, offset: int, kinds: set<nat>, strict: Strict): Option<string> {
    if offset < 0 || offset > |data| - 12 || KindOf(e, data, offset) !in kinds then None
    else
      var raw := CStringAt(data, Target(e, data, offset + 8));
      if raw == None || strict(raw.value) == None then None
      else
        var name := strict(raw.value).value;
        if name == "" || !Printable(name) then None else Some(name)
  }

  /** A conformance entry: the names of a type and of a protocol it conforms to. */
  function ResolveConformance(e: Endian, data: Bytes, entry: nat, strict: Strict): Resolved<(string, string)>
    requires entry + 4 <= |data|
  {
    var r := Target(e, data, entry);
    if Indirect(e, data, entry) || r < 0 || r > |data| - 16 then Broken
    else if I32At(e, data, r) % 4 != 0 || I32At(e, data, r + 4) % 4 != 0 then Broken
    else
      var proto := DescriptorName(e, data, Target(e, data, r), {3}, strict);
      var nominal := DescriptorName(e, data, Target(e, data, r + 4), NOMINAL_KINDS, strict);
      if proto == None || nominal == None then Broken else Found((nominal.value, proto.value))
  }

  // ----- entries -----

  function SectionsNamed(sections: seq<Section>, name: string): (r: seq<Section>)
    ensures forall s :: s in r <==> s in sections && s.name == name
  {
    if sections == [] then []
    else SectionsNamed(sections[..|sections| - 1], name)
         + if sections[|sections| - 1].name == name then [sections[|sections| - 1]] else []
  }

  predicate Readable(data: Bytes, s: Section) {
    s.size % 4 == 0 && s.size <= 4 * MAX_ENTRIES && s.offset <= |data| && s.size <= |data| - s.offset
  }

  function EntriesOf(s: Section): (r: seq<nat>)
    ensures |r| == s.size / 4 && forall i :: 0 <= i < |r| ==> r[i] == s.offset + 4 * i
  {
    seq(s.size / 4, i requires 0 <= i => s.offset + 4 * i)
  }

  /** The entries of the readable sections, in order. */
  function Entries(data: Bytes, sections: seq<Section>): (r: seq<nat>)
    ensures forall p :: p in r ==> p + 4 <= |data|
  {
    if sections == [] then []
    else
      var last := sections[|sections| - 1];
      Entries(data, sections[..|sections| - 1]) + if Readable(data, last) then EntriesOf(last) else []
  }

  function Examined(entries: seq<nat>): seq<nat> {
    if |entries| <= MAX_ENTRIES then entries else entries[..MAX_ENTRIES]
  }

  /** Something about the entries that keeps the inventory from being complete. */
  ghost predicate EntryTrouble<T>(data: Bytes, sections: seq<Section>, resolve: nat -> Resolved<T>) {
    || (exists s :: s in sections && !Readable(data, s))
    || |Entries(data, sections)| > MAX_ENTRIES
    || (exists p :: p in Examined(Entries(data, sections)) && resolve(p) == Broken)
  }

  function WithCapped<T(==)>(items: seq<T>, x: T): seq<T> {
    if x !in items && |items| < MAX_CANDIDATES then items + [x] else items
  }

  /** What some entries add to a list that holds at most a thousand items. */
  ghost predicate Listed<T>(before: seq<T>, after: seq<T>, entries: seq<nat>, resolve: nat -> Resolved<T>) {
    && before <= after && (NoRepeats(before) ==> NoRepeats(after))
    && (forall x :: x in after ==> x in before || exists p :: p in entries && resolve(p) == Found(x))
    && (forall p :: p in entries && resolve(p).Found? ==> resolve(p).value in after || |after| >= MAX_CANDIDATES)
  }

  lemma ListedMore<T>(before: seq<T>, items: seq<T>, entries: seq<nat>, p: nat, resolve: nat -> Resolved<T>)
    requires Listed(before, items, entries, resolve)
    ensures resolve(p).Found? ==> Listed(before, WithCapped(items, resolve(p).value), entries + [p], resolve)
    ensures !resolve(p).Found? ==> Listed(before, items, entries + [p], resolve)
  {
    assert forall q :: q in entries + [p] <==> q in entries || q == p;
  }

  // ----- the nested loops over sections and entries -----

  /** The entries met when i entries of section k have been. */
  ghost function Done(data: Bytes, sections: seq<Section>, k: nat, i: nat): seq<nat>
    requires k <= |sections| && (i > 0 ==> k < |sections| && i <= sections[k].size / 4)
  {
    Entries(data, sections[..k]) + if i == 0 then [] else EntriesOf(sections[k])[..i]
  }

  ghost predicate BadSection(data: Bytes, sections: seq<Section>) {
    exists s :: s in sections && !Readable(data, s)
  }

  ghost predicate BrokenEntry<T>(entries: seq<nat>, resolve: nat -> Resolved<T>) {
    exists p :: p in entries && resolve(p) == Broken
  }

  /** Where the loops are, what has been listed, and whether something was in the way. */
  ghost function Scanning<T>(data: Bytes, sections: seq<Section>, resolve: nat -> Resolved<T>, before: seq<T>): (nat,
      nat, seq<T>, bool) -> bool {
    (k: nat, i: nat, items: seq<T>, trouble: bool) =>
      && k <= |sections| && (i > 0 ==> k < |sections| && i <= sections[k].size / 4 && Readable(data, sections[k]))
      && Listed(before, items, Done(data, sections, k, i), resolve)
      && (trouble <==> BadSection(data, sections[..k]) || BrokenEntry(Done(data, sections, k, i), resolve))
  }

  /** The outcome of the loops. */
  ghost function Inventoried<T>(data: Bytes, sections: seq<Section>, resolve: nat -> Resolved<T>,
                                before: seq<T>): (seq<T>, bool) -> bool {
    (after: seq<T>, trouble: bool) =>
      && Listed(before, after, Examined(Entries(data, sections)), resolve)
      && (trouble <==> EntryTrouble(data, sections, resolve))
  }

  lemma EntriesMore(data: Bytes, sections: seq<Section>, k: nat)
    requires k < |sections|
    ensures Entries(data, sections[..k + 1]) ==
            Entries(data, sections[..k]) + if Readable(data, sections[k]) then EntriesOf(sections[k]) else []
  {
    assert sections[..k + 1][..k] == sections[..k];
  }

  lemma {:induction false} EntriesPrefix(data: Bytes, sections: seq<Section>, k: nat)
    requires k <= |sections|
    ensures Entries(data, sections[..k]) <= Entries(data, sections)
    decreases |sections| - k
  {
    if k < |sections| {
      EntriesMore(data, sections, k);
      EntriesPrefix(data, sections, k + 1);
    } else {
      assert sections[..k] == sections;
    }
  }

  lemma ScanStarts<T>(data: Bytes, sections: seq<Section>, resolve: nat -> Resolved<T>, before: seq<T>)
    ensures Scanning(data, sections, resolve, before)(0, 0, before, false)
  {
    assert sections[..0] == [];
    assert Done(data, sections, 0, 0) == [];
    assert Listed(before, before, Done(data, sections, 0, 0), resolve);
    assert !BadSection(data, sections[..0]) && !BrokenEntry(Done(data, sections, 0, 0), resolve);
  }

  lemma BadMore(data: Bytes, sections: seq<Section>, k: nat)
    requires k < |sections|
    ensures BadSection(data, sections[..k + 1]) <==> BadSection(data, sections[..k]) || !Readable(data, sections[k])
  {
    assert forall s :: s in sections[..k + 1] <==> s in sections[..k] || s == sections[k];
  }

  lemma ScanSkips<T>(data: Bytes, sections: seq<Section>, resolve: nat -> Resolved<T>, before: seq<T>, k: nat,
                     items: seq<T>, trouble: bool)
    requires Scanning(data, sections, resolve, before)(k, 0, items, trouble) && k < |sections|
             && !Readable(data, sections[k])
    ensures Scanning(data, sections, resolve, before)(k + 1, 0, items, true)
    ensures Done(data, sections, k + 1, 0) == Done(data, sections, k, 0)
  {
    BadMore(data, sections, k);
    EntriesMore(data, sections, k);
  }

  lemma ScanNextSection<T>(data: Bytes, sections: seq<Section>, resolve: nat -> Resolved<T>, before: seq<T>, k: nat,
                           i: nat, items: seq<T>, trouble: bool)
    requires Scanning(data, sections, resolve, before)(k, i, items, trouble) && k < |sections|
             && Readable(data, sections[k])
    requires i == sections[k].size / 4
    ensures Scanning(data, sections, resolve, before)(k + 1, 0, items, trouble)
    ensures Done(data, sections, k + 1, 0) == Done(data, sections, k, i)
  {
    BadMore(data, sections, k);
    EntriesMore(data, sections, k);
    assert EntriesOf(sections[k])[..i] == EntriesOf(sections[k]);
    assert Done(data, sections, k + 1, 0) == Done(data, sections, k, i);
  }

  lemma DoneMore(data: Bytes, sections: seq<Section>, k: nat, i: nat)
    requires k < |sections| && i < sections[k].size / 4
    ensures Done(data, sections, k, i + 1) == Done(data, sections, k, i) + [sections[k].offset + 4 * i]
  {
    var own := EntriesOf(sections[k]);
    assert own[..i + 1] == own[..i] + [own[i]];
  }

  lemma BrokenMore<T>(entries: seq<nat>, p: nat, resolve: nat -> Resolved<T>)
    ensures BrokenEntry(entries + [p], resolve) <==> BrokenEntry(entries, resolve) || resolve(p) == Broken
  {
    assert forall q :: q in entries + [p] <==> q in entries || q == p;
  }

  lemma ScanEntry<T>(data: Bytes, sections: seq<Section>, resolve: nat -> Resolved<T>, before: seq<T>, k: nat, i: nat,
                     items: seq<T>, trouble: bool, r: Resolved<T>)
    requires Scanning(data, sections, resolve, before)(k, i, items, trouble) && k < |sections|
             && Readable(data, sections[k])
    requires i < sections[k].size / 4 && r == resolve(sections[k].offset + 4 * i)
    ensures Scanning(data, sections, resolve, before)(
              k, i + 1, if r.Found? then WithCapped(items, r.value) else items, trouble || r == Broken)
  {
    var p := sections[k].offset + 4 * i;
    DoneMore(data, sections, k, i);
    ListedMore(before, items, Done(data, sections, k, i), p, resolve);
    BrokenMore(Done(data, sections, k, i), p, resolve);
  }

  lemma ScanEnds<T>(data: Bytes, sections: seq<Section>, resolve: nat -> Resolved<T>, before: seq<T>, items: seq<T>,
                    trouble: bool)
    requires Scanning(data, sections, resolve, before)(|sections|, 0, items, trouble)
             && |Entries(data, sections)| <= MAX_ENTRIES
    ensures Inventoried(data, sections, resolve, before)(items, trouble)
    ensures Done(data, sections, |sections|, 0) == Examined(Entries(data, sections))
  {
    assert sections[..|sections|] == sections;
    assert Done(data, sections, |sections|, 0) == Entries(data, sections);
  }

  /** One entry too many ends the loops. */
  lemma ScanCut<T>(data: Bytes, sections: seq<Section>, resolve: nat -> Resolved<T>, before: seq<T>, k: nat, i: nat,
                   items: seq<T>, trouble: bool)
    requires Scanning(data, sections, resolve, before)(k, i, items, trouble) && k < |sections|
             && Readable(data, sections[k])
    requires i < sections[k].size / 4 && |Done(data, sections, k, i)| == MAX_ENTRIES
    ensures Inventoried(data, sections, resolve, before)(items, true)
    ensures Done(data, sections, k, i) == Examined(Entries(data, sections))
  {
    EntriesMore(data, sections, k);
    EntriesPrefix(data, sections, k + 1);
    var done, own := Done(data, sections, k, i), EntriesOf(sections[k]);
    assert done == (Entries(data, sections[..k]) + own)[..MAX_ENTRIES];
    assert done == Entries(data, sections)[..MAX_ENTRIES];
  }

  lemma DoneSize(data: Bytes, sections: seq<Section>, k: nat)
    requires k < |sections|
    ensures |Done(data, sections, k, 0)| == |Entries(data, sections[..k])|
    ensures Readable(data, sections[k]) ==>
              forall i :: 0 <= i <= sections[k].size / 4 ==>
                  |Done(data, sections, k, i)| == |Entries(data, sections[..k])| + i
  {
  }

  lemma AllDone(data: Bytes, sections: seq<Section>, k: nat)
    requires k < |sections|
    ensures |Entries(data, sections[..k + 1])| ==
            |Entries(data, sections[..k])| + if Readable(data, sections[k]) then sections[k].size / 4 else 0
  {
    EntriesMore(data, sections, k);
  }

  /** A mark that says when to look a resolution up. */
  ghost predicate LookUp(p: nat) { true }

  // ----- protocols -----

  ghost predicate ResolvesProtocols(resolve: nat -> Resolved<string>, e: Endian, data: Bytes, strict: Strict) {
    forall p: nat {:trigger LookUp(p)} :: LookUp(p) && p + 4 <= |data| ==>
        resolve(p) == ResolveProtocol(e, data, p, strict)
  }

  method ResolveProtocolEntry(data: Bytes, e: Endian, p: nat, strict: Strict, ghost resolve: nat -> Resolved<string>)
    returns (r: Resolved<string>)
    requires p + 4 <= |data| && ResolvesProtocols(resolve, e, data, strict)
    ensures r == resolve(p)
  {
    assert LookUp(p);
    r := ResolveProtocol(e, data, p, strict);
  }

  method NextProtocol(data: Bytes, result: MachoAnalysisResult, e: Endian, strict: Strict, p: nat,
                      ghost resolve: nat -> Resolved<string>, ghost before: seq<string>, ghost sections: seq<Section>,
                      ghost k: nat, ghost i: nat)
    requires ResolvesProtocols(resolve, e, data, strict) && k < |sections| && Readable(data, sections[k])
             && i < sections[k].size / 4
    requires p == sections[k].offset + 4 * i && p + 4 <= |data| && result.protocolStatus != NotLooked
    requires Scanning(data, sections, resolve, before)(k, i, result.protocolNames,
                                                       result.protocolStatus == PartlyParsed)
    modifies result`protocolNames, result`protocolStatus
    ensures result.protocolStatus != NotLooked
    ensures Scanning(data, sections, resolve, before)(k, i + 1, result.protocolNames,
                                                      result.protocolStatus == PartlyParsed)
  {
    var found := ResolveProtocolEntry(data, e, p, strict, resolve);
    ScanEntry(data, sections, resolve, before, k, i, result.protocolNames, result.protocolStatus == PartlyParsed,
              found);
    match found
    case Other =>
    case Broken =>
      result.protocolStatus := PartlyParsed;
    case Found(name) =>
      result.protocolNames := WithCapped(result.protocolNames, name);
  }

  /** The entries of one section; stops at one entry too many. */
  method ProtocolSection(data: Bytes, result: MachoAnalysisResult, e: Endian, strict: Strict, section: Section,
                         examined: nat, ghost resolve: nat -> Resolved<string>, ghost before: seq<string>,
                         ghost sections: seq<Section>, ghost k: nat)
    returns (examined': nat, stop: bool)
    requires ResolvesProtocols(resolve, e, data, strict) && k < |sections| && sections[k] == section
             && Readable(data, section)
    requires examined == |Done(data, sections, k, 0)| <= MAX_ENTRIES && result.protocolStatus != NotLooked
    requires Scanning(data, sections, resolve, before)(k, 0, result.protocolNames,
                                                       result.protocolStatus == PartlyParsed)
    modifies result`protocolNames, result`protocolStatus
    ensures result.protocolStatus != NotLooked
    ensures !stop ==> examined' == |Entries(data, sections[..k + 1])| <= MAX_ENTRIES
    ensures !stop ==> Scanning(data, sections, resolve, before)(k + 1, 0, result.protocolNames,
                                                                result.protocolStatus == PartlyParsed)
    ensures stop ==> Inventoried(data, sections, resolve, before)(result.protocolNames,
                                                                  result.protocolStatus == PartlyParsed)
  {
    DoneSize(data, sections, k);
    AllDone(data, sections, k);
    examined' := examined;
    var count := section.size / 4;
    for i := 0 to count
      invariant examined' == |Done(data, sections, k, i)| == examined + i <= MAX_ENTRIES
                && result.protocolStatus != NotLooked
      invariant Scanning(data, sections, resolve, before)(k, i, result.protocolNames,
                                                          result.protocolStatus == PartlyParsed)
    {
      if examined' + 1 > MAX_ENTRIES {
        ScanCut(data, sections, resolve, before, k, i, result.protocolNames, result.protocolStatus == PartlyParsed);
        result.protocolStatus := PartlyParsed;
        return examined', true;
      }
      examined' := examined' + 1;
      NextProtocol(data, result, e, strict, section.offset + 4 * i, resolve, before, sections, k, i);
    }
    ScanNextSection(data, sections, resolve, before, k, count, result.protocolNames,
                    result.protocolStatus == PartlyParsed);
    stop := false;
  }

  /** The names of the protocols whose descriptors the entries lead to. */
  method ExtractSwiftProtocolNames(data: Bytes, result: MachoAnalysisResult, e: Endian, strict: Strict,
                                   ghost resolve: nat -> Resolved<string>)
    requires ResolvesProtocols(resolve, e, data, strict)
    modifies result`protocolNames, result`protocolStatus
    ensures var sections := SectionsNamed(result.sections, "__swift5_protos");
            if sections == [] then
              result.protocolNames == old(result.protocolNames) && result.protocolStatus == old(result.protocolStatus)
            else
              && result.protocolStatus != NotLooked
              && Inventoried(data, sections, resolve, old(result.protocolNames))(result.protocolNames,
                 result.protocolStatus == PartlyParsed)
  {
    var sections := SectionsNamed(result.sections, "__swift5_protos");
    if sections == [] {
      return;
    }
    result.protocolStatus := Parsed;
    ghost var before := result.protocolNames;
    var examined := 0;
    ScanStarts(data, sections, resolve, before);
    for k := 0 to |sections|
      invariant examined == |Entries(data, sections[..k])| <= MAX_ENTRIES && result.protocolStatus != NotLooked
      invariant Scanning(data, sections, resolve, before)(k, 0, result.protocolNames,
                                                          result.protocolStatus == PartlyParsed)
    {
      if !Readable(data, sections[k]) {
        AllDone(data, sections, k);
        ScanSkips(data, sections, resolve, before, k, result.protocolNames, result.protocolStatus == PartlyParsed);
        result.protocolStatus := PartlyParsed;
        continue;
      }
      var stop;
      DoneSize(data, sections, k);
      examined, stop := ProtocolSection(data, result, e, strict, sections[k], examined, resolve, before, sections, k);
      if stop {
        return;
      }
    }
    assert sections[..|sections|] == sections;
    ScanEnds(data, sections, resolve, before, result.protocolNames, result.protocolStatus == PartlyParsed);
  }

  // ----- conformances -----

  ghost predicate ResolvesConformances(resolve: nat -> Resolved<(string, string)>, e: Endian, data: Bytes,
                                       strict: Strict) {
    forall p: nat {:trigger LookUp(p)} :: LookUp(p) && p + 4 <= |data| ==>
        resolve(p) == ResolveConformance(e, data, p, strict)
  }

  method ResolveConformanceEntry(data: Bytes, e: Endian, p: nat, strict: Strict,
                                 ghost resolve: nat -> Resolved<(string, string)>)
    returns (r: Resolved<(string, string)>)
    requires p + 4 <= |data| && ResolvesConformances(resolve, e, data, strict)
    ensures r == resolve(p)
  {
    assert LookUp(p);
    r := ResolveConformance(e, data, p, strict);
  }

  /** Every pair found is listed unless one had no room, which is recorded. */
  ghost predicate AllOrFull<T>(items: seq<T>, entries: seq<nat>, resolve: nat -> Resolved<T>, full: bool) {
    (full ==> |items| >= MAX_CANDIDATES) && (!full ==> forall p :: p in entries && resolve(p).Found? ==>
                                             resolve(p).value in items)
  }

  /** What the loops know about pairs, and why the status is what it is. */
  ghost function PairsScanned(data: Bytes, sections: seq<Section>, resolve: nat -> Resolved<(string, string)>,
                              before: seq<(string, string)>):
    (nat, nat, seq<(string, string)>, MetadataStatus, bool, bool) -> bool
  {
    (k: nat, i: nat, pairs: seq<(string, string)>, status: MetadataStatus, trouble: bool, full: bool) =>
      && Scanning(data, sections, resolve, before)(k, i, pairs, trouble)
      && k <= |sections| && (i > 0 ==> k < |sections| && i <= sections[k].size / 4)
      && AllOrFull(pairs, Done(data, sections, k, i), resolve, full)
      && status != NotLooked && (status == PartlyParsed) == (trouble || full)
  }

  ghost function PairsInventoried(data: Bytes, sections: seq<Section>, resolve: nat -> Resolved<(string, string)>,
                                  before: seq<(string, string)>):
    (seq<(string, string)>, MetadataStatus, bool, bool) -> bool
  {
    (pairs: seq<(string, string)>, status: MetadataStatus, trouble: bool, full: bool) =>
      && Inventoried(data, sections, resolve, before)(pairs, trouble)
      && AllOrFull(pairs, Examined(Entries(data, sections)), resolve, full)
      && status != NotLooked && (status == PartlyParsed) == (trouble || full)
  }

  function NoRoom<T(==)>(items: seq<T>, r: Resolved<T>): bool {
    r.Found? && r.value !in items && |items| >= MAX_CANDIDATES
  }

  lemma FullMore<T>(items: seq<T>, entries: seq<nat>, p: nat, resolve: nat -> Resolved<T>, full: bool)
    requires AllOrFull(items, entries, resolve, full)
    ensures var r := resolve(p);
            AllOrFull(if r.Found? then WithCapped(items, r.value) else items, entries + [p], resolve, full
                      || NoRoom(items, r))
  {
    assert forall q :: q in entries + [p] <==> q in entries || q == p;
  }

  lemma PairsStart(data: Bytes, sections: seq<Section>, resolve: nat -> Resolved<(string, string)>,
                   before: seq<(string, string)>)
    ensures PairsScanned(data, sections, resolve, before)(0, 0, before, Parsed, false, false)
  {
    ScanStarts(data, sections, resolve, before);
    assert sections[..0] == [];
    assert AllOrFull(before, Done(data, sections, 0, 0), resolve, false);
  }

  lemma PairsStep(data: Bytes, sections: seq<Section>, resolve: nat -> Resolved<(string, string)>,
                  before: seq<(string, string)>, k: nat, i: nat, pairs: seq<(string, string)>, status: MetadataStatus,
                  trouble: bool, full: bool, p: nat, r: Resolved<(string, string)>)
    requires PairsScanned(data, sections, resolve, before)(k, i, pairs, status, trouble, full) && k < |sections|
             && Readable(data, sections[k])
    requires i < sections[k].size / 4 && p == sections[k].offset + 4 * i && r == resolve(p)
    ensures PairsScanned(data, sections, resolve, before)(
              k, i + 1, if r.Found? then WithCapped(pairs, r.value) else pairs,
              if r == Broken || NoRoom(pairs, r) then PartlyParsed else status, trouble || r == Broken, full
                  || NoRoom(pairs, r))
  {
    assert Scanning(data, sections, resolve, before)(k, i, pairs, trouble);
    ScanEntry(data, sections, resolve, before, k, i, pairs, trouble, r);
    DoneMore(data, sections, k, i);
    FullMore(pairs, Done(data, sections, k, i), p, resolve, full);
  }

  method NextConformance(data: Bytes, result: MachoAnalysisResult, e: Endian, strict: Strict, p: nat,
                         ghost resolve: nat -> Resolved<(string, string)>, ghost before: seq<(string, string)>,
                         ghost sections: seq<Section>, ghost k: nat, ghost i: nat, ghost trouble: bool,
                         ghost full: bool)
    returns (ghost trouble': bool, ghost full': bool)
    requires ResolvesConformances(resolve, e, data, strict) && k < |sections| && Readable(data, sections[k])
             && i < sections[k].size / 4
    requires p == sections[k].offset + 4 * i && p + 4 <= |data|
    requires PairsScanned(data, sections, resolve, before)(k, i, result.conformances, result.conformanceStatus,
                                                           trouble, full)
    modifies result`conformances, result`conformanceStatus
    ensures PairsScanned(data, sections, resolve, before)(k, i + 1, result.conformances, result.conformanceStatus,
                                                          trouble', full')
  {
    var found := ResolveConformanceEntry(data, e, p, strict, resolve);
    PairsStep(data, sections, resolve, before, k, i, result.conformances, result.conformanceStatus, trouble, full, p,
              found);
    trouble', full' := trouble || found == Broken, full || NoRoom(result.conformances, found);
    match found
    case Other =>
    case Broken =>
      result.conformanceStatus := PartlyParsed;
    case Found(pair) =>
      if pair !in result.conformances {
        if |result.conformances| < MAX_CANDIDATES {
          result.conformances := result.conformances + [pair];
        } else {
          result.conformanceStatus := PartlyParsed;
        }
      }
  }

  method ConformanceSection(data: Bytes, result: MachoAnalysisResult, e: Endian, strict: Strict, section: Section,
                            examined: nat, ghost resolve: nat -> Resolved<(string, string)>,
                            ghost before: seq<(string, string)>, ghost sections: seq<Section>, ghost k: nat,
                            ghost trouble: bool, ghost full: bool)
    returns (examined': nat, stop: bool, ghost trouble': bool, ghost full': bool)
    requires ResolvesConformances(resolve, e, data, strict) && k < |sections| && sections[k] == section
             && Readable(data, section)
    requires examined == |Done(data, sections, k, 0)| <= MAX_ENTRIES
    requires PairsScanned(data, sections, resolve, before)(k, 0, result.conformances, result.conformanceStatus,
                                                           trouble, full)
    modifies result`conformances, result`conformanceStatus
    ensures !stop ==> examined' == |Entries(data, sections[..k + 1])| <= MAX_ENTRIES
    ensures !stop ==> PairsScanned(data, sections, resolve, before)(k + 1, 0, result.conformances,
                                                                    result.conformanceStatus, trouble', full')
    ensures stop ==> PairsInventoried(data, sections, resolve, before)(result.conformances, result.conformanceStatus,
            trouble', full')
  {
    DoneSize(data, sections, k);
    AllDone(data, sections, k);
    examined', trouble', full' := examined, trouble, full;
    var count := section.size / 4;
    for i := 0 to count
      invariant examined' == |Done(data, sections, k, i)| == examined + i <= MAX_ENTRIES
      invariant PairsScanned(data, sections, resolve, before)(k, i, result.conformances, result.conformanceStatus,
                                                              trouble', full')
    {
      if examined' + 1 > MAX_ENTRIES {
        ScanCut(data, sections, resolve, before, k, i, result.conformances, trouble');
        result.conformanceStatus := PartlyParsed;
        return examined', true, true, full';
      }
      examined' := examined' + 1;
      trouble', full' := NextConformance(
        data, result, e, strict, section.offset + 4 * i, resolve, before, sections, k, i, trouble', full');
    }
    ScanNextSection(data, sections, resolve, before, k, count, result.conformances, trouble');
    stop := false;
  }

  /** The pairs of a type and a protocol whose conformance descriptors the entries lead to. */
  method ExtractSwiftConformances(data: Bytes, result: MachoAnalysisResult, e: Endian, strict: Strict,
                                  ghost resolve: nat -> Resolved<(string, string)>)
    returns (ghost trouble: bool, ghost full: bool)
    requires ResolvesConformances(resolve, e, data, strict)
    modifies result`conformances, result`conformanceStatus
    ensures var sections := SectionsNamed(result.sections, "__swift5_proto");
            if sections == [] then
              result.conformances == old(result.conformances)
                  && result.conformanceStatus == old(result.conformanceStatus)
            else
              && result.conformanceStatus != NotLooked
              && PairsInventoried(data, sections, resolve, old(result.conformances))(
                   result.conformances, result.conformanceStatus, trouble, full)
  {
    trouble, full := false, false;
    var sections := SectionsNamed(result.sections, "__swift5_proto");
    if sections == [] {
      return;
    }
    result.conformanceStatus := Parsed;
    ghost var before := result.conformances;
    var examined := 0;
    PairsStart(data, sections, resolve, before);
    for k := 0 to |sections|
      invariant examined == |Entries(data, sections[..k])| <= MAX_ENTRIES
      invariant PairsScanned(data, sections, resolve, before)(k, 0, result.conformances, result.conformanceStatus,
                                                              trouble, full)
    {
      if !Readable(data, sections[k]) {
        AllDone(data, sections, k);
        ScanSkips(data, sections, resolve, before, k, result.conformances, trouble);
        result.conformanceStatus := PartlyParsed;
        trouble := true;
        continue;
      }
      DoneSize(data, sections, k);
      var stop;
      examined, stop, trouble, full := ConformanceSection(
        data, result, e, strict, sections[k], examined, resolve, before, sections, k, trouble, full);
      if stop {
        return;
      }
    }
    assert sections[..|sections|] == sections;
    ScanEnds(data, sections, resolve, before, result.conformances, trouble);
  }
}
