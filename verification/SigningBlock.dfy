/**
 The APK Signing Block: finding the end of the central directory, walking the ID-value pairs before the
 central directory, and reading the certificates out of the v2 and v3 signers.
 */
module SigningBlock {
  import opened Wrappers
  import opened Collections
  import opened LittleEndian

  const V2_ID: nat := 0x7109871A
  const V3_ID: nat := 0xF05368C0
  const V31_ID: nat := 0x1B93FD61
  const MAX_CERTIFICATES: nat := 16
  const EOCD_SIZE: nat := 22
  const MAX_EOCD_SEARCH: nat := 65557

  /** "APK Sig Block 42" */
  const MAGIC: Bytes := [0x41, 0x50, 0x4B, 0x20, 0x53, 0x69, 0x67, 0x20, 0x42, 0x6C, 0x6F, 0x63, 0x6B, 0x20, 0x34, 0x32]
  const EOCD_SIGNATURE: Bytes := [0x50, 0x4B, 0x05, 0x06]

  lemma MagicIsText(i: nat)
    requires i < 16
    ensures |MAGIC| == 16 && MAGIC[i] == "APK Sig Block 42"[i] as int
    ensures i < 2 ==> EOCD_SIGNATURE[i] == "PK"[i] as int
  {
  }

  // ----- end of central directory -----

  predicate SignatureAt(apk: Bytes, i: int) {
    0 <= i && i + 4 <= |apk| && apk[i..i + 4] == EOCD_SIGNATURE
  }

  /** Where a record with a comment of at most 65535 bytes can start. */
  predicate InSearchRange(apk: Bytes, i: int) {
    0 <= i <= |apk| - EOCD_SIZE && |apk| - i <= MAX_EOCD_SEARCH
  }

  ghost predicate LastRecord(apk: Bytes, i: int) {
    InSearchRange(apk, i) && SignatureAt(apk, i) && forall j :: i < j && InSearchRange(apk, j) ==> !SignatureAt(apk, j)
  }

  method FindEocdOffset(apk: Bytes) returns (offset: int)
    ensures offset >= 0 ==> LastRecord(apk, offset)
    ensures offset < 0 ==> offset == -1 && forall i :: InSearchRange(apk, i) ==> !SignatureAt(apk, i)
  {
    var maxSearch := if |apk| < MAX_EOCD_SEARCH then |apk| else MAX_EOCD_SEARCH;
    var startSearch: int := |apk| - EOCD_SIZE;
    var endSearch: int := |apk| - maxSearch;
    var i := startSearch;
    while i >= endSearch
      invariant i <= startSearch
      invariant forall j :: i < j && InSearchRange(apk, j) ==> !SignatureAt(apk, j)
    {
      if apk[i..i + 4] == EOCD_SIGNATURE { return i; }
      i := i - 1;
    }
    return -1;
  }

  lemma LastRecordIsUnique(apk: Bytes, i: int, j: int)
    requires LastRecord(apk, i) && LastRecord(apk, j)
    ensures i == j
  {
  }

  // ----- ID-value pairs -----

  datatype Pair = Pair(id: nat, value: Bytes) {
    ghost predicate Encodable() { id < U32 && |value| + 4 < U64 }

    function Encoded(): Bytes { Encode(4 + |value|, 8) + Encode(id, 4) + value }
  }

  ghost predicate AllEncodable(pairs: seq<Pair>) {
    forall p {:trigger p.Encodable()} :: p in pairs ==> p.Encodable()
  }

  function EncodeAll(pairs: seq<Pair>): Bytes {
    if pairs == [] then [] else pairs[0].Encoded() + EncodeAll(pairs[1..])
  }

  datatype Walked = Walked(pairs: seq<Pair>, stop: nat)

  function PairLength(apk: Bytes, offset: nat): nat
    requires offset + 8 <= |apk|
  {
    ReadAt(apk, offset, 8)
  }

  /** The pairs met from offset, and where the walk stops: a pair's header must end by end, its value by limit. */
  function Walk(apk: Bytes, offset: nat, end: nat, limit: nat): (r: Walked)
    requires end <= limit <= |apk|
    ensures offset <= r.stop && (offset <= limit ==> r.stop <= limit)
    decreases |apk| - offset
  {
    if offset + 12 > end || PairLength(apk, offset) < 4 || offset + 8 + PairLength(apk, offset) > limit then
      Walked([], offset)
    else
      var next := offset + 8 + PairLength(apk, offset);
      var rest := Walk(apk, next, end, limit);
      Walked([Pair(ReadAt(apk, offset + 8, 4), apk[offset + 12..next])] + rest.pairs, rest.stop)
  }

  lemma PairTaken(apk: Bytes, offset: nat, end: nat, limit: nat, next: nat)
    requires offset + 12 <= end <= limit <= |apk| && PairLength(apk, offset) >= 4
    requires next == offset + 8 + PairLength(apk, offset) && next <= limit
    ensures Walk(apk, offset, end, limit).pairs ==
            [Pair(ReadAt(apk, offset + 8, 4), apk[offset + 12..next])] + Walk(apk, next, end, limit).pairs
  {
  }

  /** One accepted pair is exactly the encoding of what is read from it. */
  lemma PairIsEncoded(apk: Bytes, offset: nat, next: nat)
    requires offset + 12 <= next <= |apk| && next == offset + 8 + PairLength(apk, offset)
    ensures var p := Pair(ReadAt(apk, offset + 8, 4), apk[offset + 12..next]);
            p.Encodable() && apk[offset..next] == p.Encoded()
  {
    EncodesBack64(apk, offset);
    EncodesBack32(apk, offset + 8);
    SplitAt(apk, offset, offset + 8, offset + 12);
    SplitAt(apk, offset, offset + 12, next);
  }

  /** On any bytes, the visited pairs tile what has been walked over. */
  lemma {:induction false} WalkTiles(apk: Bytes, offset: nat, end: nat, limit: nat)
    requires offset <= limit && end <= limit <= |apk|
    ensures var w := Walk(apk, offset, end, limit);
            apk[offset..w.stop] == EncodeAll(w.pairs) && AllEncodable(w.pairs)
    decreases |apk| - offset
  {
    var w := Walk(apk, offset, end, limit);
    if w.pairs != [] {
      var next := offset + 8 + PairLength(apk, offset);
      PairIsEncoded(apk, offset, next);
      WalkTiles(apk, next, end, limit);
      SplitAt(apk, offset, next, w.stop);
      assert w.pairs[1..] == Walk(apk, next, end, limit).pairs;
    }
  }

  lemma EncodedPairIsRead(apk: Bytes, offset: nat, p: Pair, rest: Bytes)
    requires offset <= |apk| && apk[offset..] == p.Encoded() + rest && p.Encodable()
    ensures offset + 12 + |p.value| <= |apk|
    ensures PairLength(apk, offset) == 4 + |p.value| && ReadAt(apk, offset + 8, 4) == p.id
    ensures apk[offset + 12..offset + 12 + |p.value|] == p.value && apk[offset + 12 + |p.value|..] == rest
  {
    var size, id := Encode(4 + |p.value|, 8), Encode(p.id, 4);
    var tail := apk[offset..];
    assert tail == size + (id + (p.value + rest));
    assert apk[offset..offset + 8] == tail[..8] == size;
    ReadsBack64(apk, offset, 4 + |p.value|);
    assert apk[offset + 8..] == tail[8..] == id + (p.value + rest);
    assert apk[offset + 8..offset + 12] == apk[offset + 8..][..4] == id;
    ReadsBack32(apk, offset + 8, p.id);
    assert apk[offset + 12..] == apk[offset + 8..][4..] == p.value + rest;
    assert apk[offset + 12..offset + 12 + |p.value|] == apk[offset + 12..][..|p.value|];
    assert apk[offset + 12 + |p.value|..] == apk[offset + 12..][|p.value|..];
  }

  /** A well-formed pair area is read back whole. */
  lemma {:induction false} WalkReadsBack(apk: Bytes, offset: nat, end: nat, limit: nat, pairs: seq<Pair>)
    requires offset <= end <= limit <= |apk| && apk[offset..end] == EncodeAll(pairs)
    requires AllEncodable(pairs)
    ensures Walk(apk, offset, end, limit) == Walked(pairs, end)
    decreases |pairs|
  {
    if pairs != [] {
      var p := pairs[0];
      assert p.Encodable();
      FirstPairIsRead(apk, offset, end, p, EncodeAll(pairs[1..]));
      WalkReadsBack(apk, offset + 12 + |p.value|, end, limit, pairs[1..]);
      WalkStep(apk, offset, end, limit, p);
      assert pairs == [p] + pairs[1..];
    }
  }

  lemma FirstPairIsRead(apk: Bytes, offset: nat, end: nat, p: Pair, rest: Bytes)
    requires offset <= end <= |apk| && apk[offset..end] == p.Encoded() + rest && p.Encodable()
    ensures var next := offset + 12 + |p.value|;
            && next <= end && PairLength(apk, offset) == 4 + |p.value| && ReadAt(apk, offset + 8, 4) == p.id
            && apk[offset + 12..next] == p.value && apk[next..end] == rest
  {
    SplitAt(apk, offset, end, |apk|);
    assert apk[offset..|apk|] == apk[offset..];
    assert apk[offset..] == p.Encoded() + (rest + apk[end..]);
    EncodedPairIsRead(apk, offset, p, rest + apk[end..]);
    var next := offset + 12 + |p.value|;
    assert |apk[offset..end]| == |p.Encoded()| + |rest|;
    assert apk[next..end] == apk[next..][..end - next] == rest;
  }

  lemma WalkStep(apk: Bytes, offset: nat, end: nat, limit: nat, p: Pair)
    requires offset + 12 + |p.value| <= end <= limit <= |apk|
    requires PairLength(apk, offset) == 4 + |p.value| && ReadAt(apk, offset + 8, 4) == p.id
    requires apk[offset + 12..offset + 12 + |p.value|] == p.value
    ensures var rest := Walk(apk, offset + 12 + |p.value|, end, limit);
            Walk(apk, offset, end, limit) == Walked([p] + rest.pairs, rest.stop)
  {
  }

  ghost predicate IsPairArea(area: Bytes) {
    exists pairs: seq<Pair> :: EncodeAll(pairs) == area && AllEncodable(pairs)
  }

  /** The walk stops at the end of the pair area exactly when the area is a sequence of pairs. */
  lemma WalkCoversExactly(apk: Bytes, offset: nat, end: nat, limit: nat)
    requires offset <= end <= limit <= |apk|
    ensures Walk(apk, offset, end, limit).stop == end <==> IsPairArea(apk[offset..end])
  {
    WalkTiles(apk, offset, end, limit);
    if IsPairArea(apk[offset..end]) {
      var pairs: seq<Pair> :| EncodeAll(pairs) == apk[offset..end] && AllEncodable(pairs);
      WalkReadsBack(apk, offset, end, limit, pairs);
    }
  }

  /** A pair that starts in the pair area and ends after it, but not after the limit. */
  predicate RunsOver(apk: Bytes, offset: nat, end: nat, limit: nat)
    requires end <= limit <= |apk|
  {
    offset + 12 <= end && end < offset + 8 + PairLength(apk, offset) <= limit
  }

  /**
   The bound on a pair is the central directory and not the end of the pair area. That makes a difference exactly
   when the walk kept inside the area stops in front of a pair that runs over its end.
   */
  lemma {:induction false} LooseBoundExactly(apk: Bytes, offset: nat, end: nat, limit: nat)
    requires offset <= end <= limit <= |apk|
    ensures Walk(apk, offset, end, limit) == Walk(apk, offset, end, end)
            <==> !RunsOver(apk, Walk(apk, offset, end, end).stop, end, limit)
    decreases |apk| - offset
  {
    if Walk(apk, offset, end, end).pairs != [] {
      var next := offset + 8 + PairLength(apk, offset);
      LooseBoundExactly(apk, next, end, limit);
      var strict, loose := Walk(apk, offset, end, end), Walk(apk, offset, end, limit);
      assert strict.pairs[1..] == Walk(apk, next, end, end).pairs
          && loose.pairs[1..] == Walk(apk, next, end, limit).pairs;
      assert strict.pairs[0] == loose.pairs[0];
      assert strict.pairs == [strict.pairs[0]] + strict.pairs[1..]
          && loose.pairs == [loose.pairs[0]] + loose.pairs[1..];
    }
  }

  // ----- signers -----

  /** A slice that is cut off at the end of the data. */
  function Cut(data: Bytes, from: nat, to: nat): Bytes {
    if from >= |data| || to < from then [] else data[from..Min(to, |data|)]
  }

  /** The length-prefixed items from q, without those that would run out of the data. */
  function Items(data: Bytes, q: nat, end: nat): seq<Bytes>
    requires end <= |data|
    decreases |data| - q
  {
    if q + 4 > end then []
    else
      var next := q + 4 + ReadAt(data, q, 4);
      (if next <= |data| then [data[q + 4..next]] else []) + Items(data, next, end)
  }

  function SignedCertificates(signed: Bytes): seq<Bytes> {
    if |signed| < 4 then []
    else
      var p := 4 + ReadAt(signed, 0, 4);
      if p + 4 > |signed| then [] else Items(signed, p + 4, Min(|signed|, p + 4 + ReadAt(signed, p, 4)))
  }

  lemma CertificatesPlaced(signed: Bytes, p: nat, end: nat)
    requires 4 <= p && p + 4 <= |signed| && p == 4 + ReadAt(signed, 0, 4)
             && end == Min(|signed|, p + 4 + ReadAt(signed, p, 4))
    ensures SignedCertificates(signed) == Items(signed, p + 4, end)
  {
  }

  function SignedData(signer: Bytes): Bytes {
    if |signer| < 4 then [] else Cut(signer, 4, 4 + ReadAt(signer, 0, 4))
  }

  function SignerCertificates(): Bytes -> seq<Bytes> {
    signer => SignedCertificates(SignedData(signer))
  }

  /** What read makes of the signers from offset on. */
  function SignersFrom(value: Bytes, offset: nat, end: nat, read: Bytes -> seq<Bytes>): seq<Bytes>
    requires end <= |value|
    decreases |value| - offset
  {
    if offset + 4 > end then []
    else
      var next := offset + 4 + ReadAt(value, offset, 4);
      read(Cut(value, offset + 4, next)) + SignersFrom(value, next, end, read)
  }

  lemma SignersStep(value: Bytes, offset: nat, end: nat, read: Bytes -> seq<Bytes>)
    requires end <= |value| && offset + 4 <= end
    ensures var next := offset + 4 + ReadAt(value, offset, 4);
            SignersFrom(value, offset, end, read) == read(Cut(value, offset + 4, next))
                + SignersFrom(value, next, end, read)
  {
  }

  function SignersEnd(value: Bytes): (r: nat)
    requires |value| >= 4
    ensures r <= |value|
  {
    Min(|value|, 4 + ReadAt(value, 0, 4))
  }

  /** Every certificate of every signer, in order. */
  function AllCertificates(value: Bytes): seq<Bytes> {
    if |value| < 8 then [] else SignersFrom(value, 4, SignersEnd(value), SignerCertificates())
  }

  function Capped(certs: seq<Bytes>): (r: seq<Bytes>) {
    if |certs| <= MAX_CERTIFICATES then certs else certs[..MAX_CERTIFICATES]
  }

  lemma FullStaysFull(certs: seq<Bytes>, a: seq<Bytes>, b: seq<Bytes>)
    requires |certs| == MAX_CERTIFICATES
    ensures Capped(certs + a + b) == Capped(certs + b) == certs
  {
  }

  method ParseSigners(value: Bytes) returns (certs: seq<Bytes>)
    ensures certs == Capped(AllCertificates(value))
  {
    certs := [];
    if |value| < 8 {
      return;
    }
    var signersLength := ReadAt(value, 0, 4);
    var offset, end := 4, Min(|value|, 4 + signersLength);
    certs := ReadSigners(value, offset, end, SignerCertificates());
  }

  ghost predicate Reads(read: Bytes -> seq<Bytes>) {
    forall signer {:trigger SignedData(signer)} :: read(signer) == SignedCertificates(SignedData(signer))
  }

  method ReadSigners(value: Bytes, start: nat, end: nat, ghost read: Bytes -> seq<Bytes>) returns (certs: seq<Bytes>)
    requires end <= |value| && Reads(read)
    ensures certs == Capped(SignersFrom(value, start, end, read))
  {
    certs := [];
    var offset := start;
    ghost var wanted := Capped(SignersFrom(value, start, end, read));
    OwedAtFirst(SignersFrom(value, start, end, read));
    while offset + 4 <= end && |certs| < MAX_CERTIFICATES
      invariant |certs| <= MAX_CERTIFICATES && Owed(wanted)(certs, SignersFrom(value, offset, end, read))
      decreases |value| - offset
    {
      var signerLength := ReadAt(value, offset, 4);
      SignersStep(value, offset, end, read);
      offset := offset + 4;
      var signer := Cut(value, offset, offset + signerLength);
      offset := offset + signerLength;
      ghost var got, later := certs, SignersFrom(value, offset, end, read);
      assert Owed(wanted)(got, read(signer) + later);
      certs := AddSigner(signer, certs, later, read);
      OwedMore(wanted, got, read(signer), later, certs);
    }
    OwedNoMore(wanted, certs, SignersFrom(value, offset, end, read));
  }

  /** With what is still to come, the certificates so far are those wanted. */
  ghost function Owed(wanted: seq<Bytes>): (seq<Bytes>, seq<Bytes>) -> bool {
    (certs: seq<Bytes>, later: seq<Bytes>) => Capped(certs + later) == wanted
  }

  lemma OwedAtFirst(all: seq<Bytes>)
    ensures Owed(Capped(all))([], all)
  {
    assert [] + all == all;
  }

  lemma OwedMore(wanted: seq<Bytes>, got: seq<Bytes>, some: seq<Bytes>, later: seq<Bytes>, certs: seq<Bytes>)
    requires Owed(wanted)(got, some + later) && Capped(certs + later) == Capped(got + (some + later))
    ensures Owed(wanted)(certs, later)
  {
  }

  lemma OwedNoMore(wanted: seq<Bytes>, certs: seq<Bytes>, later: seq<Bytes>)
    requires Owed(wanted)(certs, later) && |certs| <= MAX_CERTIFICATES && (later == [] || |certs| == MAX_CERTIFICATES)
    ensures certs == wanted
  {
    assert later == [] ==> certs + later == certs;
  }

  /** One signer's certificates, as far as there is room; later is what the remaining signers hold. */
  method AddSigner(signer: Bytes, got: seq<Bytes>, ghost later: seq<Bytes>, ghost read: Bytes -> seq<Bytes>)
    returns (certs: seq<Bytes>)
    requires |got| <= MAX_CERTIFICATES && Reads(read)
    ensures |certs| <= MAX_CERTIFICATES
    ensures Capped(certs + later) == Capped(got + (read(signer) + later))
  {
    assert [] + later == later;
    assert read(signer) == SignedCertificates(SignedData(signer));
    if |signer| < 4 {
      return got;
    }
    certs := AddSigned(Cut(signer, 4, 4 + ReadAt(signer, 0, 4)), got, later);
  }

  method AddSigned(signed: Bytes, got: seq<Bytes>, ghost later: seq<Bytes>) returns (certs: seq<Bytes>)
    requires |got| <= MAX_CERTIFICATES
    ensures |certs| <= MAX_CERTIFICATES
    ensures Capped(certs + later) == Capped(got + (SignedCertificates(signed) + later))
  {
    assert [] + later == later;
    if |signed| < 4 {
      return got;
    }
    var p := 4 + ReadAt(signed, 0, 4);
    if p + 4 > |signed| {
      return got;
    }
    var q := p + 4;
    var end := Min(|signed|, q + ReadAt(signed, p, 4));
    CertificatesPlaced(signed, p, end);
    certs := AddItems(signed, q, end, got, later);
  }

  method AddItems(signed: Bytes, start: nat, end: nat, got: seq<Bytes>, ghost later: seq<Bytes>)
      returns (certs: seq<Bytes>)
    requires |got| <= MAX_CERTIFICATES && end <= |signed|
    ensures |certs| <= MAX_CERTIFICATES
    ensures Capped(certs + later) == Capped(got + (Items(signed, start, end) + later))
  {
    certs := got;
    var q := start;
    while q + 4 <= end && |certs| < MAX_CERTIFICATES
      invariant |certs| <= MAX_CERTIFICATES
      invariant Capped(certs + (Items(signed, q, end) + later)) == Capped(got + (Items(signed, start, end) + later))
      decreases |signed| - q
    {
      var length := ReadAt(signed, q, 4);
      ghost var items := Items(signed, q, end);
      q := q + 4;
      if q + length <= |signed| {
        ghost var rest := Items(signed, q + length, end);
        assert certs + (items + later) == (certs + [signed[q..q + length]]) + (rest + later);
        certs := certs + [signed[q..q + length]];
      } else {
        assert items == Items(signed, q + length, end);
      }
      q := q + length;
    }
    assert certs + (Items(signed, q, end) + later) == certs + Items(signed, q, end) + later;
    if |certs| == MAX_CERTIFICATES { FullStaysFull(certs, Items(signed, q, end), later); }
  }

  // ----- every certificate is a slice of the value -----

  ghost predicate IsSlice(x: Bytes, data: Bytes) {
    exists i, j :: 0 <= i <= j <= |data| && data[i..j] == x
  }

  lemma SliceOfSlice(x: Bytes, y: Bytes, z: Bytes)
    requires IsSlice(x, y) && IsSlice(y, z)
    ensures IsSlice(x, z)
  {
    var i, j :| 0 <= i <= j <= |y| && y[i..j] == x;
    var k, l :| 0 <= k <= l <= |z| && z[k..l] == y;
    NestedSlice(z, k, l, i, j);
  }

  lemma NestedSlice(z: Bytes, k: nat, l: nat, i: nat, j: nat)
    requires k <= l <= |z| && i <= j <= l - k
    ensures z[k + i..k + j] == z[k..l][i..j]
  {
    forall n | 0 <= n < j - i ensures z[k + i..k + j][n] == z[k..l][i..j][n] {
      assert z[k..l][i..j][n] == z[k..l][i + n] == z[k + (i + n)];
    }
  }

  lemma CutIsSlice(data: Bytes, from: nat, to: nat)
    ensures IsSlice(Cut(data, from, to), data)
  {
    if from >= |data| || to < from {
      assert data[0..0] == Cut(data, from, to);
    } else {
      assert data[from..Min(to, |data|)] == Cut(data, from, to);
    }
  }

  lemma {:induction false} ItemsAreSlices(data: Bytes, q: nat, end: nat, x: Bytes)
    requires end <= |data| && x in Items(data, q, end)
    ensures IsSlice(x, data)
    decreases |data| - q
  {
    var next := q + 4 + ReadAt(data, q, 4);
    if next <= |data| && x == data[q + 4..next] {
    } else {
      ItemsAreSlices(data, next, end, x);
    }
  }

  lemma SignedSlices(signed: Bytes, x: Bytes)
    requires x in SignedCertificates(signed)
    ensures IsSlice(x, signed)
  {
    var p := 4 + ReadAt(signed, 0, 4);
    var end := Min(|signed|, p + 4 + ReadAt(signed, p, 4));
    CertificatesPlaced(signed, p, end);
    ItemsAreSlices(signed, p + 4, end, x);
  }

  ghost predicate ReadsSlices(read: Bytes -> seq<Bytes>) {
    forall signer, x :: x in read(signer) ==> IsSlice(x, signer)
  }

  lemma SignerSlices()
    ensures ReadsSlices(SignerCertificates())
  {
    forall signer, x | x in SignerCertificates()(signer) ensures IsSlice(x, signer) {
      SignedSlices(SignedData(signer), x);
      SignedIsSlice(signer);
      SliceOfSlice(x, SignedData(signer), signer);
    }
  }

  lemma SignedIsSlice(signer: Bytes)
    ensures IsSlice(SignedData(signer), signer)
  {
    if |signer| < 4 {
      assert signer[0..0] == [];
    } else {
      CutIsSlice(signer, 4, 4 + ReadAt(signer, 0, 4));
    }
  }

  lemma {:induction false} SignersReadSlices(value: Bytes, offset: nat, end: nat, read: Bytes -> seq<Bytes>, x: Bytes)
    requires end <= |value| && ReadsSlices(read) && x in SignersFrom(value, offset, end, read)
    ensures IsSlice(x, value)
    decreases |value| - offset
  {
    var next := offset + 4 + ReadAt(value, offset, 4);
    var signer := Cut(value, offset + 4, next);
    if x in read(signer) {
      CutIsSlice(value, offset + 4, next);
      SliceOfSlice(x, signer, value);
    } else {
      SignersReadSlices(value, next, end, read, x);
    }
  }

  /** Whatever the bytes, every certificate is a contiguous part of them. */
  lemma CertificatesAreSlices(value: Bytes, x: Bytes)
    requires x in AllCertificates(value)
    ensures IsSlice(x, value)
  {
    SignerSlices();
    SignersReadSlices(value, 4, SignersEnd(value), SignerCertificates(), x);
  }

  // ----- encoding -----

  function Prefixed(b: Bytes): Bytes { Encode(|b|, 4) + b }

  function PrefixedAll(items: seq<Bytes>): Bytes {
    if items == [] then [] else Prefixed(items[0]) + PrefixedAll(items[1..])
  }

  /** A v2 or v3 signer: what follows the certificates in the signed data, and what follows the signed data, are not
   looked at. */
  datatype Signer = Signer(digests: Bytes, certificates: seq<Bytes>, attributes: Bytes, rest: Bytes) {
    function SignedData(): Bytes { Prefixed(digests) + Prefixed(PrefixedAll(certificates)) + attributes }

    function Encoded(): Bytes { Prefixed(SignedData()) + rest }

    ghost predicate Encodable() { |SignedData()| < U32 }
  }

  function EncodeAs(encode: Signer -> Bytes, signers: seq<Signer>): seq<Bytes> {
    if signers == [] then [] else [encode(signers[0])] + EncodeAs(encode, signers[1..])
  }

  function Encoder(): Signer -> Bytes { (s: Signer) => s.Encoded() }

  function EncodeSigners(signers: seq<Signer>): Bytes {
    PrefixedAll(EncodeAs(Encoder(), signers))
  }

  function CertificatesOf(signers: seq<Signer>): seq<Bytes> {
    if signers == [] then [] else signers[0].certificates + CertificatesOf(signers[1..])
  }

  lemma PrefixedIsRead(data: Bytes, q: nat, b: Bytes, rest: Bytes)
    requires q <= |data| && data[q..] == Prefixed(b) + rest && |b| < U32
    ensures q + 4 + |b| <= |data| && ReadAt(data, q, 4) == |b|
    ensures data[q + 4..q + 4 + |b|] == b && data[q + 4 + |b|..] == rest && data[q + 4..] == b + rest
  {
    var tail := data[q..];
    assert tail == Encode(|b|, 4) + (b + rest);
    assert data[q..q + 4] == tail[..4] == Encode(|b|, 4);
    ReadsBack32(data, q, |b|);
    assert data[q + 4..] == tail[4..] == b + rest;
    assert data[q + 4..q + 4 + |b|] == data[q + 4..][..|b|];
    assert data[q + 4 + |b|..] == data[q + 4..][|b|..];
  }

  lemma FirstItemIsRead(data: Bytes, q: nat, items: seq<Bytes>, rest: Bytes)
    requires items != [] && q <= |data| && data[q..] == PrefixedAll(items) + rest && |PrefixedAll(items)| < U32
    ensures var next := q + 4 + |items[0]|;
            && next <= |data| && ReadAt(data, q, 4) == |items[0]| && data[q + 4..next] == items[0]
            && data[next..] == PrefixedAll(items[1..]) + rest
    ensures |PrefixedAll(items)| == 4 + |items[0]| + |PrefixedAll(items[1..])|
  {
    var b, more := items[0], PrefixedAll(items[1..]);
    assert PrefixedAll(items) + rest == Prefixed(b) + (more + rest);
    PrefixedIsRead(data, q, b, more + rest);
  }

  lemma {:induction false} ItemsReadBack(data: Bytes, q: nat, items: seq<Bytes>, rest: Bytes)
    requires q <= |data| && data[q..] == PrefixedAll(items) + rest && |PrefixedAll(items)| < U32
    ensures Items(data, q, q + |PrefixedAll(items)|) == items
    decreases |items|
  {
    if items != [] {
      FirstItemIsRead(data, q, items, rest);
      ItemsReadBack(data, q + 4 + |items[0]|, items[1..], rest);
      assert items == [items[0]] + items[1..];
    }
  }

  lemma SignedDataReadsBack(signer: Bytes, signed: Bytes, rest: Bytes)
    requires signer == Prefixed(signed) + rest && |signed| < U32
    ensures SignedData(signer) == signed
  {
    assert signer[0..] == Prefixed(signed) + rest;
    PrefixedIsRead(signer, 0, signed, rest);
    assert Cut(signer, 4, 4 + |signed|) == signed;
  }

  lemma SignerReadsBack(s: Signer)
    requires s.Encodable()
    ensures SignerCertificates()(s.Encoded()) == s.certificates
  {
    var signer, signed := s.Encoded(), s.SignedData();
    SignedDataReadsBack(signer, signed, s.rest);
    SignedReadsBack(signed, s.digests, s.certificates, PrefixedAll(s.certificates), s.attributes);
  }

  lemma SignedLayout(signed: Bytes, digests: Bytes, certs: Bytes, attributes: Bytes)
    requires |digests| < U32 && |certs| < U32 && signed == Prefixed(digests) + Prefixed(certs) + attributes
    ensures var p := 4 + |digests|;
            && p + 4 + |certs| <= |signed| && ReadAt(signed, 0, 4) == |digests| && ReadAt(signed, p, 4) == |certs|
            && signed[p + 4..] == certs + attributes
  {
    assert signed[0..] == Prefixed(digests) + (Prefixed(certs) + attributes);
    PrefixedIsRead(signed, 0, digests, Prefixed(certs) + attributes);
    PrefixedIsRead(signed, 4 + |digests|, certs, attributes);
  }

  lemma SignedReadsBack(signed: Bytes, digests: Bytes, certificates: seq<Bytes>, certs: Bytes, attributes: Bytes)
    requires certs == PrefixedAll(certificates) && |digests| < U32 && |certs| < U32
    requires signed == Prefixed(digests) + Prefixed(certs) + attributes
    ensures SignedCertificates(signed) == certificates
  {
    SignedLayout(signed, digests, certs, attributes);
    var p := 4 + |digests|;
    ItemsReadBack(signed, p + 4, certificates, attributes);
    CertificatesPlaced(signed, p, p + 4 + |certs|);
  }

  function ReadAll(read: Bytes -> seq<Bytes>, items: seq<Bytes>): seq<Bytes> {
    if items == [] then [] else read(items[0]) + ReadAll(read, items[1..])
  }

  lemma {:induction false} SignersReadBack(value: Bytes, offset: nat, items: seq<Bytes>, rest: Bytes,
                                           read: Bytes -> seq<Bytes>)
    requires offset <= |value| && value[offset..] == PrefixedAll(items) + rest && |PrefixedAll(items)| < U32
    ensures SignersFrom(value, offset, offset + |PrefixedAll(items)|, read) == ReadAll(read, items)
    decreases |items|
  {
    if items != [] {
      var next, end := offset + 4 + |items[0]|, offset + |PrefixedAll(items)|;
      FirstItemIsRead(value, offset, items, rest);
      assert next + |PrefixedAll(items[1..])| == end;
      SignersReadBack(value, next, items[1..], rest, read);
      FirstSignerIsRead(value, offset, next, end, items[0], read);
    }
  }

  lemma FirstSignerIsRead(value: Bytes, offset: nat, next: nat, end: nat, signer: Bytes, read: Bytes -> seq<Bytes>)
    requires offset + 4 <= next <= end <= |value| && next == offset + 4 + ReadAt(value, offset, 4)
    requires value[offset + 4..next] == signer
    ensures SignersFrom(value, offset, end, read) == read(signer) + SignersFrom(value, next, end, read)
  {
    assert Cut(value, offset + 4, next) == signer;
    SignersStep(value, offset, end, read);
  }

  lemma {:induction false} ReadsAllCertificates(signers: seq<Signer>, encode: Signer -> Bytes,
                                                read: Bytes -> seq<Bytes>)
    requires forall i :: 0 <= i < |signers| ==> read(encode(signers[i])) == signers[i].certificates
    ensures ReadAll(read, EncodeAs(encode, signers)) == CertificatesOf(signers)
  {
    if signers != [] { ReadsAllCertificates(signers[1..], encode, read); }
  }

  /** Every certificate of an encoded scheme value is read back, in order. */
  lemma ParseUndoesEncode(signers: seq<Signer>, rest: Bytes)
    requires |EncodeSigners(signers)| < U32 && forall i :: 0 <= i < |signers| ==> signers[i].Encodable()
    ensures AllCertificates(Prefixed(EncodeSigners(signers)) + rest) == CertificatesOf(signers)
  {
    forall i | 0 <= i < |signers| ensures SignerCertificates()(Encoder()(signers[i])) == signers[i].certificates {
      SignerReadsBack(signers[i]);
    }
    ReadsAllCertificates(signers, Encoder(), SignerCertificates());
    var body := EncodeSigners(signers);
    SignersOfValue(Prefixed(body) + rest, EncodeAs(Encoder(), signers), body, rest, SignerCertificates());
  }

  lemma SignersOfValue(value: Bytes, items: seq<Bytes>, body: Bytes, rest: Bytes, read: Bytes -> seq<Bytes>)
    requires body == PrefixedAll(items) && |body| < U32 && value == Prefixed(body) + rest
    ensures (if |value| < 8 then [] else SignersFrom(value, 4, SignersEnd(value), read)) == ReadAll(read, items)
  {
    ValueIsRead(value, body, rest);
    var end, found := SignersEnd(value), ReadAll(read, items);
    if |value| < 8 {
      ShortHasNone(items, body, |value|, rest, found, read);
    } else {
      SignersReadBackTo(value, items, rest, read, end, found);
    }
  }

  lemma ShortHasNone(items: seq<Bytes>, body: Bytes, size: nat, rest: Bytes, found: seq<Bytes>,
                     read: Bytes -> seq<Bytes>)
    requires body == PrefixedAll(items) && size == 4 + |body| + |rest| < 8 && found == ReadAll(read, items)
    ensures found == []
  {
  }

  lemma SignersReadBackTo(value: Bytes, items: seq<Bytes>, rest: Bytes, read: Bytes -> seq<Bytes>, end: nat,
                          found: seq<Bytes>)
    requires 4 <= |value| && value[4..] == PrefixedAll(items) + rest && |PrefixedAll(items)| < U32
    requires end == 4 + |PrefixedAll(items)| && found == ReadAll(read, items)
    ensures SignersFrom(value, 4, end, read) == found
  {
    SignersReadBack(value, 4, items, rest, read);
  }

  lemma ValueIsRead(value: Bytes, body: Bytes, rest: Bytes)
    requires |body| < U32 && value == Prefixed(body) + rest
    ensures SignersEnd(value) == 4 + |body| <= |value| && value[4..] == body + rest
  {
    assert value[0..] == Prefixed(body) + rest;
    PrefixedIsRead(value, 0, body, rest);
    assert value[4..] == body + rest;
  }

  // ----- the whole block -----

  ghost function Eocd(apk: Bytes): (e: int)
    ensures e >= 0 ==> LastRecord(apk, e)
    ensures e < 0 ==> e == -1 && forall i :: !LastRecord(apk, i)
  {
    if i :| LastRecord(apk, i) then i else -1
  }

  lemma EocdIs(apk: Bytes, i: nat)
    requires LastRecord(apk, i)
    ensures Eocd(apk) == i
  {
    LastRecordIsUnique(apk, Eocd(apk), i);
  }

  datatype Located = TooShort | NoRecord | BadDirectory | NoBlock | BadSize | Block(start: nat, directory: nat)

  ghost function Locate(apk: Bytes): (r: Located)
    ensures r.Block? ==> r.start + 32 <= r.directory <= |apk|
  {
    if |apk| < 32 then TooShort
    else if Eocd(apk) < 0 then NoRecord
    else LocateBefore(apk, ReadAt(apk, Eocd(apk) + 16, 4))
  }

  function LocateBefore(apk: Bytes, directory: nat): (r: Located)
    ensures r.Block? ==> r.start + 32 <= r.directory <= |apk|
  {
    if directory < 32 || directory > |apk| then BadDirectory
    else if apk[directory - 16..directory] != MAGIC then NoBlock
    else
      var size := ReadAt(apk, directory - 24, 8);
      if directory - size - 8 < 0 || size < 24 then BadSize else Block(directory - size - 8, directory)
  }

  /** The ID-value pairs of a block; a pair only has to end before the central directory. */
  function PairsOf(apk: Bytes, start: nat, directory: nat): Walked
    requires start + 32 <= directory <= |apk|
  {
    Walk(apk, start + 8, directory - 24, directory)
  }

  function Scheme(id: nat): Option<string> {
    if id == V2_ID then Some("v2")
    else if id == V3_ID then Some("v3")
    else if id == V31_ID then Some("v3.1")
    else None
  }

  function Marked(schemes: map<string, bool>, pairs: seq<Pair>): map<string, bool>
    decreases |pairs|
  {
    if pairs == [] then schemes
    else Marked(MarkedBy(schemes, pairs[0].id), pairs[1..])
  }

  function MarkedBy(schemes: map<string, bool>, id: nat): map<string, bool> {
    if Scheme(id).Some? then schemes[Scheme(id).value := true] else schemes
  }

  function Gather(pairs: seq<Pair>, read: Pair -> seq<Bytes>): seq<Bytes> {
    if pairs == [] then [] else read(pairs[0]) + Gather(pairs[1..], read)
  }

  function PairReader(): Pair -> seq<Bytes> {
    (p: Pair) => if Scheme(p.id).Some? then Capped(AllCertificates(p.value)) else []
  }

  /** The certificates of all signature schemes, in the order of the pairs. */
  function CertificatesIn(pairs: seq<Pair>): seq<Bytes> {
    Gather(pairs, PairReader())
  }

  /** The IDs that the schemes have in a signing block. */
  predicate Identifies(id: nat, scheme: string) {
    || (scheme == "v2" && id == 0x7109871A)
    || (scheme == "v3" && id == 0xF05368C0)
    || (scheme == "v3.1" && id == 0x1B93FD61)
  }

  lemma SchemeIdentified(id: nat, scheme: string)
    ensures Scheme(id) == Some(scheme) <==> Identifies(id, scheme)
  {
    assert "v2"[1] != "v3"[1] && |"v3.1"| != |"v3"|;
  }

  ghost predicate Carries(pairs: seq<Pair>, scheme: string) {
    exists i :: 0 <= i < |pairs| && Identifies(pairs[i].id, scheme)
  }

  /** A scheme is flagged exactly when it was before, or a pair carries its ID. */
  lemma {:induction false} FlagsExactlyCarried(schemes: map<string, bool>, pairs: seq<Pair>, scheme: string)
    ensures var after := Marked(schemes, pairs);
            && (scheme in after && after[scheme] <==> (scheme in schemes && schemes[scheme]) || Carries(pairs, scheme))
            && (!Carries(pairs, scheme) ==> (scheme in after <==> scheme in schemes))
    decreases |pairs|
  {
    if pairs != [] {
      var rest := pairs[1..];
      FlagsExactlyCarried(MarkedBy(schemes, pairs[0].id), rest, scheme);
      SchemeIdentified(pairs[0].id, scheme);
      if Carries(rest, scheme) {
        var i :| 0 <= i < |rest| && Identifies(rest[i].id, scheme);
        assert Identifies(pairs[i + 1].id, scheme);
      }
      if Carries(pairs, scheme) && !Identifies(pairs[0].id, scheme) {
        var i :| 0 <= i < |pairs| && Identifies(pairs[i].id, scheme);
        assert Identifies(rest[i - 1].id, scheme);
      }
    }
  }

  lemma {:induction false} GatherAppends(a: seq<Pair>, p: Pair, read: Pair -> seq<Bytes>)
    ensures Gather(a + [p], read) == Gather(a, read) + read(p)
  {
    if a == [] {
      assert (a + [p])[1..] == [];
    } else {
      GatherAppends(a[1..], p, read);
      assert (a + [p])[1..] == a[1..] + [p];
    }
  }

  lemma {:induction false} MarkedAppends(schemes: map<string, bool>, a: seq<Pair>, p: Pair)
    ensures Marked(schemes, a + [p]) == MarkedBy(Marked(schemes, a), p.id)
    decreases |a|
  {
    if a == [] {
      assert (a + [p])[1..] == [];
    } else {
      MarkedAppends(MarkedBy(schemes, a[0].id), a[1..], p);
      assert (a + [p])[1..] == a[1..] + [p];
    }
  }

  /** Some of all the pairs have been visited, and left these certificates and flags. */
  ghost function Visiting(all: seq<Pair>, before: map<string, bool>, read: Pair -> seq<Bytes>):
    (seq<Pair>, seq<Pair>, seq<Bytes>, map<string, bool>) -> bool
  {
    (done: seq<Pair>, rest: seq<Pair>, certs: seq<Bytes>, schemes: map<string, bool>) =>
      done + rest == all && certs == Gather(done, read) && schemes == Marked(before, done)
  }

  lemma VisitStarts(all: seq<Pair>, before: map<string, bool>, read: Pair -> seq<Bytes>)
    ensures Visiting(all, before, read)([], all, [], before)
  {
    assert [] + all == all;
    assert Gather([], read) == [] && Marked(before, []) == before;
  }

  lemma VisitStep(all: seq<Pair>, before: map<string, bool>, read: Pair -> seq<Bytes>, done: seq<Pair>, p: Pair,
                  rest: seq<Pair>, certs: seq<Bytes>, schemes: map<string, bool>)
    requires Visiting(all, before, read)(done, [p] + rest, certs, schemes)
    ensures Visiting(all, before, read)(done + [p], rest, certs + read(p), MarkedBy(schemes, p.id))
  {
    GatherAppends(done, p, read);
    MarkedAppends(before, done, p);
    assert done + ([p] + rest) == done + [p] + rest;
  }

  /** The next pair of the walk has been visited. */
  lemma VisitNext(all: seq<Pair>, before: map<string, bool>, read: Pair -> seq<Bytes>, done: seq<Pair>,
                  certs: seq<Bytes>, schemes: map<string, bool>, apk: Bytes, offset: nat, end: nat, directory: nat,
                  p: Pair, next: nat)
    requires offset + 12 <= end <= directory <= |apk| && PairLength(apk, offset) >= 4
    requires next == offset + 8 + PairLength(apk, offset) && next <= directory
    requires p == Pair(ReadAt(apk, offset + 8, 4), apk[offset + 12..next])
    requires Visiting(all, before, read)(done, Walk(apk, offset, end, directory).pairs, certs, schemes)
    ensures Visiting(all, before, read)(done + [p], Walk(apk, next, end, directory).pairs, certs + read(p),
                                        MarkedBy(schemes, p.id))
  {
    PairTaken(apk, offset, end, directory, next);
    VisitStep(all, before, read, done, p, Walk(apk, next, end, directory).pairs, certs, schemes);
  }

  /** No pair is left, so all have been visited. */
  lemma VisitEnds(all: seq<Pair>, before: map<string, bool>, read: Pair -> seq<Bytes>, done: seq<Pair>,
                  certs: seq<Bytes>, schemes: map<string, bool>, apk: Bytes, offset: nat, end: nat, directory: nat)
    requires end <= directory <= |apk|
    requires offset + 12 > end || PairLength(apk, offset) < 4 || offset + 8 + PairLength(apk, offset) > directory
    requires Visiting(all, before, read)(done, Walk(apk, offset, end, directory).pairs, certs, schemes)
    ensures certs == Gather(all, read) && schemes == Marked(before, all)
  {
    assert done + [] == done;
  }

  class SignatureAuditResult {
    var schemes: map<string, bool>
    var signingBlockFound: bool
    var warnings: seq<string>

    constructor ()
      ensures schemes == map["v1" := false, "v2" := false, "v3" := false, "v3.1" := false]
      ensures !signingBlockFound && warnings == []
    {
      schemes := map["v1" := false, "v2" := false, "v3" := false, "v3.1" := false];
      signingBlockFound := false;
      warnings := [];
    }

    /** The new state, and the certificates, as the place of the block determines them. */
    ghost predicate Extracted(apk: Bytes, found: Located, certs: seq<Bytes>, schemesBefore: map<string, bool>,
                              foundBefore: bool, warningsBefore: seq<string>)
      reads this
    {
      && signingBlockFound == (foundBefore || found.Block? || found.BadSize?)
      && warnings == warningsBefore + Complaint(found)
      && if found.Block? && found.start + 32 <= found.directory <= |apk| then
           var pairs := PairsOf(apk, found.start, found.directory).pairs;
           certs == CertificatesIn(pairs) && schemes == Marked(schemesBefore, pairs)
         else certs == [] && schemes == schemesBefore
    }

    method ExtractSigningBlockCertificates(apk: Bytes) returns (certs: seq<Bytes>)
      modifies this
      ensures Extracted(apk, Locate(apk), certs, old(schemes), old(signingBlockFound), old(warnings))
    {
      ghost var found := Locate(apk);
      if |apk| < 32 {
        return [];
      }
      var eocd := FindEocdOffset(apk);
      if eocd >= 0 {
        EocdIs(apk, eocd);
      }
      if eocd < 0 {
        assert found == NoRecord;
        warnings := warnings + Complaint(NoRecord);
        return [];
      }
      var directory := ReadAt(apk, eocd + 16, 4);
      certs := ReadBlockBefore(apk, directory, found);
    }

    method ReadBlockBefore(apk: Bytes, directory: nat, ghost found: Located) returns (certs: seq<Bytes>)
      requires found == LocateBefore(apk, directory)
      modifies this
      ensures Extracted(apk, found, certs, old(schemes), old(signingBlockFound), old(warnings))
    {
      if directory < 32 || directory > |apk| {
        assert found == BadDirectory;
        warnings := warnings + Complaint(BadDirectory);
        return [];
      }
      if apk[directory - 16..directory] != MAGIC {
        assert found == NoBlock;
        return [];
      }
      signingBlockFound := true;
      var size := ReadAt(apk, directory - 24, 8);
      var start := directory - size - 8;
      if start < 0 || size < 24 {
        assert found == BadSize;
        warnings := warnings + Complaint(BadSize);
        return [];
      }
      BlockIsFound(apk, directory, found, start);
      certs := VisitPairs(apk, start + 8, directory - 24, directory);
    }

    method VisitPairs(apk: Bytes, start: nat, end: nat, directory: nat) returns (certs: seq<Bytes>)
      requires start <= end <= directory <= |apk|
      modifies this`schemes
      ensures var pairs := Walk(apk, start, end, directory).pairs;
              certs == CertificatesIn(pairs) && schemes == Marked(old(schemes), pairs)
    {
      certs := [];
      var offset := start;
      ghost var done: seq<Pair> := [];
      ghost var all := Walk(apk, start, end, directory).pairs;
      VisitStarts(all, schemes, PairReader());
      while offset + 12 <= end
        invariant start <= offset <= directory
        invariant Visiting(all, old(schemes), PairReader())(done, Walk(apk, offset, end, directory).pairs, certs,
                                                            schemes)
        decreases directory - offset
      {
        var length := PairLength(apk, offset);
        if length < 4 || offset + 8 + length > directory {
          break;
        }
        var next := offset + 8 + length;
        var id := ReadAt(apk, offset + 8, 4);
        var value := apk[offset + 12..next];
        VisitNext(all, old(schemes), PairReader(), done, certs, schemes, apk, offset, end, directory,
                  Pair(id, value), next);
        var more := VisitPair(id, value);
        certs := certs + more;
        offset := next;
        done := done + [Pair(id, value)];
      }
      VisitEnds(all, old(schemes), PairReader(), done, certs, schemes, apk, offset, end, directory);
    }

    method VisitPair(id: nat, value: Bytes) returns (certs: seq<Bytes>)
      modifies this`schemes
      ensures certs == PairReader()(Pair(id, value)) && schemes == MarkedBy(old(schemes), id)
    {
      certs := [];
      if id == V2_ID {
        schemes := schemes["v2" := true];
        certs := ParseSigners(value);
      } else if id == V3_ID {
        schemes := schemes["v3" := true];
        certs := ParseSigners(value);
      } else if id == V31_ID {
        schemes := schemes["v3.1" := true];
        certs := ParseSigners(value);
      }
    }
  }

  function Complaint(found: Located): seq<string> {
    match found
    case NoRecord => ["Could not find ZIP End of Central Directory record."]
    case BadDirectory => ["Central directory offset is invalid or out of bounds."]
    case BadSize => ["APK signing block size is corrupted."]
    case _ => []
  }

  // ----- a signed file -----

  /** What stands around a pair area: its size before and after it, and the magic. */
  function Framed(area: Bytes): Bytes {
    var size := Encode(|area| + 24, 8);
    size + area + size + MAGIC
  }

  function EncodeBlock(pairs: seq<Pair>): Bytes {
    Framed(EncodeAll(pairs))
  }

  /** The block is found where it is, and exactly these pairs are visited, up to the end of the pair area. */
  ghost function ReadAs(apk: Bytes): (nat, nat, seq<Pair>) -> bool {
    (start: nat, directory: nat, pairs: seq<Pair>) =>
      && Locate(apk) == Block(start, directory) && start + 32 <= directory <= |apk|
      && PairsOf(apk, start, directory) == Walked(pairs, directory - 24)
  }

  /** A framed area in front of the central directory is located. */
  lemma AreaIsLocated(apk: Bytes, before: Bytes, area: Bytes, tail: Bytes)
    requires |area| + 24 < U64 && apk == before + Framed(area) + tail
    requires Eocd(apk) >= 0 && ReadAt(apk, Eocd(apk) + 16, 4) == |before| + |area| + 32
    ensures Locate(apk) == Block(|before|, |before| + |area| + 32)
    ensures |apk| >= |before| + |area| + 32 && apk[|before| + 8..|before| + 8 + |area|] == area
    ensures apk[|before| + 8 + |area|..|before| + |area| + 32] == Encode(|area| + 24, 8) + MAGIC
  {
    var size, end := Encode(|area| + 24, 8), |before| + 8 + |area|;
    FramedLayout(apk, before, area, tail, size, end);
    SizeIsLocated(apk, |before|, end, |area| + 24);
  }

  lemma FramedLayout(apk: Bytes, before: Bytes, area: Bytes, tail: Bytes, size: Bytes, end: nat)
    requires |area| + 24 < U64 && apk == before + Framed(area) + tail
    requires size == Encode(|area| + 24, 8) && end == |before| + 8 + |area|
    ensures end + 24 <= |apk| && apk[|before| + 8..end] == area && apk[end..end + 24] == size + MAGIC
    ensures apk[end..end + 8] == size && apk[end + 8..end + 24] == MAGIC
  {
    BlockLayout(apk, before, size, area, MAGIC, tail);
    SplitAt(apk, end, end + 8, end + 24);
  }

  lemma SizeIsLocated(apk: Bytes, start: nat, end: nat, size: nat)
    requires start + 8 <= end && end + 24 <= |apk| && size == end - start + 16 < U64
    requires apk[end..end + 8] == Encode(size, 8) && apk[end + 8..end + 24] == MAGIC
    ensures LocateBefore(apk, end + 24) == Block(start, end + 24)
  {
    ReadsBack64(apk, end, size);
    BlockIsLocated(apk, start, end);
  }

  /** In a file whose block precedes its central directory, exactly the pairs of the block are visited. */
  lemma SignedFileIsRead(apk: Bytes, before: Bytes, pairs: seq<Pair>, tail: Bytes)
    requires |EncodeAll(pairs)| + 24 < U64 && AllEncodable(pairs) && apk == before + EncodeBlock(pairs) + tail
    requires Eocd(apk) >= 0 && ReadAt(apk, Eocd(apk) + 16, 4) == |before| + |EncodeBlock(pairs)|
    ensures ReadAs(apk)(|before|, |before| + |EncodeBlock(pairs)|, pairs)
  {
    PairsInArea(apk, before, EncodeAll(pairs), pairs, tail);
  }

  lemma PairsInArea(apk: Bytes, before: Bytes, area: Bytes, pairs: seq<Pair>, tail: Bytes)
    requires area == EncodeAll(pairs) && |area| + 24 < U64 && AllEncodable(pairs) && apk == before + Framed(area) + tail
    requires Eocd(apk) >= 0 && ReadAt(apk, Eocd(apk) + 16, 4) == |before| + |area| + 32
    ensures ReadAs(apk)(|before|, |before| + |area| + 32, pairs)
  {
    AreaIsLocated(apk, before, area, tail);
    PairsWhereLocated(apk, |before|, |before| + |area| + 32, pairs);
  }

  lemma PairsWhereLocated(apk: Bytes, start: nat, directory: nat, pairs: seq<Pair>)
    requires Locate(apk) == Block(start, directory) && start + 32 <= directory <= |apk|
    requires apk[start + 8..directory - 24] == EncodeAll(pairs) && AllEncodable(pairs)
    ensures ReadAs(apk)(start, directory, pairs)
  {
    PairsAreRead(apk, start, directory, pairs);
  }

  /** An end-of-central-directory record without a comment. */
  function Record(directory: nat): Bytes {
    EOCD_SIGNATURE + Encode(0, 12) + Encode(directory, 4) + Encode(0, 2)
  }

  lemma RecordIsFound(apk: Bytes, front: Bytes, directory: nat)
    requires apk == front + Record(directory) && directory < U32
    ensures Eocd(apk) == |front| && ReadAt(apk, Eocd(apk) + 16, 4) == directory
  {
    assert apk[|front|..|front| + 4] == EOCD_SIGNATURE;
    EocdIs(apk, |front|);
    assert apk[|front| + 16..|front| + 20] == Encode(directory, 4);
    ReadsBack32(apk, |front| + 16, directory);
  }

  /** The whole file: contents, block, central directory and its record. */
  lemma SignedApkIsRead(apk: Bytes, before: Bytes, pairs: seq<Pair>, block: Bytes, entries: Bytes)
    requires AllEncodable(pairs) && block == EncodeBlock(pairs) && |before| + |block| < U32
    requires apk == before + block + entries + Record(|before| + |block|)
    ensures ReadAs(apk)(|before|, |before| + |block|, pairs)
  {
    var record := Record(|before| + |block|);
    RecordIsFound(apk, before + block + entries, |before| + |block|);
    Regroup(before + block, entries, record);
    SignedFileIsRead(apk, before, pairs, entries + record);
  }

  // ----- a value that is read on into the footer -----

  /** The header of a pair whose value of k bytes does not fit into the area any more. */
  function Overrun(id: nat, k: nat): Bytes {
    Encode(4 + k, 8) + Encode(id, 4)
  }

  /** What follows an area of twelve bytes. */
  function Footer(): Bytes {
    Encode(36, 8) + MAGIC
  }

  /** A file whose only pair has no room for its value. */
  function OverrunFile(id: nat, k: nat): Bytes {
    Framed(Overrun(id, k)) + Record(44)
  }

  /** The block is accepted, and the value of its pair is read from the size and the magic that follow the area. */
  lemma ReadsIntoFooter(id: nat, k: nat)
    requires id < U32 && 0 < k <= 24
    ensures Locate(OverrunFile(id, k)) == Block(0, 44)
    ensures PairsOf(OverrunFile(id, k), 0, 44) == Walked([Pair(id, Footer()[..k])], 20 + k)
  {
    var apk := OverrunFile(id, k);
    OverrunIsLocated(apk, Overrun(id, k));
    OverrunIsRead(apk, id, k);
  }

  lemma OverrunIsLocated(apk: Bytes, area: Bytes)
    requires |area| == 12 && apk == Framed(area) + Record(44)
    ensures Locate(apk) == Block(0, 44) && |apk| >= 44 && apk[8..20] == area && apk[20..44] == Footer()
  {
    RecordIsFound(apk, Framed(area), 44);
    assert apk == [] + Framed(area) + Record(44);
    AreaIsLocated(apk, [], area, Record(44));
  }

  lemma OverrunIsRead(apk: Bytes, id: nat, k: nat)
    requires id < U32 && 0 < k <= 24 && |apk| >= 44
    requires apk[8..20] == Overrun(id, k) && apk[20..44] == Footer()
    ensures PairsOf(apk, 0, 44) == Walked([Pair(id, Footer()[..k])], 20 + k)
  {
    assert apk[8..16] == apk[8..20][..8] == Encode(4 + k, 8);
    assert apk[16..20] == apk[8..20][8..] == Encode(id, 4);
    ReadsBack64(apk, 8, 4 + k);
    ReadsBack32(apk, 16, id);
    assert apk[20..20 + k] == apk[20..44][..k];
    StopsAfterOne(apk, 8, 20, 44, 20 + k, id);
  }

  lemma StopsAfterOne(apk: Bytes, offset: nat, end: nat, limit: nat, next: nat, id: nat)
    requires offset + 12 == end <= next <= limit <= |apk|
    requires PairLength(apk, offset) == next - offset - 8 && ReadAt(apk, offset + 8, 4) == id
    ensures Walk(apk, offset, end, limit) == Walked([Pair(id, apk[end..next])], next)
  {
    assert Walk(apk, next, end, limit) == Walked([], next);
  }

  lemma PairsAreRead(apk: Bytes, start: nat, directory: nat, pairs: seq<Pair>)
    requires start + 32 <= directory <= |apk| && apk[start + 8..directory - 24] == EncodeAll(pairs)
    requires AllEncodable(pairs)
    ensures PairsOf(apk, start, directory) == Walked(pairs, directory - 24)
  {
    WalkReadsBack(apk, start + 8, directory - 24, directory, pairs);
  }

  lemma BlockIsFound(apk: Bytes, directory: nat, found: Located, start: nat)
    requires 32 <= directory <= |apk| && apk[directory - 16..directory] == MAGIC
             && found == LocateBefore(apk, directory)
    requires start == directory - ReadAt(apk, directory - 24, 8) - 8 && ReadAt(apk, directory - 24, 8) >= 24
    ensures found == Block(start, directory) && start + 32 <= directory
    ensures PairsOf(apk, start, directory) == Walk(apk, start + 8, directory - 24, directory)
  {
  }

  lemma BlockIsLocated(apk: Bytes, start: nat, end: nat)
    requires start + 8 <= end && end + 24 <= |apk| && ReadAt(apk, end, 8) == end - start + 16
             && apk[end + 8..end + 24] == MAGIC
    ensures LocateBefore(apk, end + 24) == Block(start, end + 24)
  {
  }

  lemma BlockLayout(apk: Bytes, before: Bytes, size: Bytes, area: Bytes, magic: Bytes, tail: Bytes)
    requires apk == before + (size + area + size + magic) + tail && |size| == 8 && |magic| == 16
    ensures var end := |before| + 8 + |area|;
            && end + 24 <= |apk| && apk[|before| + 8..end] == area
            && apk[end..end + 8] == size && apk[end + 8..end + 24] == magic
  {
  }
}
