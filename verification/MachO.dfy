/**
 The 64-bit Mach-O parser: load commands inside their declared region, section records, imported libraries and the
 symbol table, in either byte order.
 */
module MachO {
  import opened Wrappers
  import opened Collections
  import opened LittleEndian

  // ----- numbers in either byte order -----

  datatype Endian = Little | Big

  function BigAt(data: Bytes, offset: nat, width: nat): nat
    requires offset + width <= |data|
    decreases |data|, width
  {
    if width == 0 then 0 else 256 * BigAt(data, offset, width - 1) + data[offset + width - 1]
  }

  function Num(e: Endian, data: Bytes, offset: nat, width: nat): nat
    requires offset + width <= |data|
  {
    if e.Little? then ReadAt(data, offset, width) else BigAt(data, offset, width)
  }

  function U32At(e: Endian, data: Bytes, offset: nat): nat
    requires offset + 4 <= |data|
  {
    Num(e, data, offset, 4)
  }

  /** Two's complement. */
  function I32At(e: Endian, data: Bytes, offset: nat): int
    requires offset + 4 <= |data|
  {
    var n := U32At(e, data, offset);
    if n < 0x8000_0000 then n else n - U32
  }

  function Enc(e: Endian, n: nat, width: nat): (r: Bytes)
    ensures |r| == width
  {
    if e.Little? then Encode(n, width) else seq(width, i requires 0 <= i < width => Digit(n, width - 1 - i))
  }

  lemma {:induction false} BigReadsBack(data: Bytes, offset: nat, n: nat, width: nat)
    requires offset + width <= |data| && n < Bound(width) && data[offset..offset + width] == Enc(Big, n, width)
    ensures BigAt(data, offset, width) == n
    decreases width
  {
    if width > 0 {
      var here, w := data[offset..offset + width], width - 1;
      assert here[w] == Digit(n, 0);
      forall i | 0 <= i < w ensures data[offset..offset + w][i] == Enc(Big, n / 256, w)[i] {
        assert data[offset..offset + w][i] == here[i] == Digit(n, width - 1 - i);
      }
      assert data[offset..offset + w] == Enc(Big, n / 256, w);
      BigReadsBack(data, offset, n / 256, w);
    }
  }

  lemma {:induction false} BigEncodesBack(data: Bytes, offset: nat, width: nat)
    requires offset + width <= |data|
    ensures BigAt(data, offset, width) < Bound(width)
    ensures Enc(Big, BigAt(data, offset, width), width) == data[offset..offset + width]
    decreases width
  {
    if width > 0 {
      var w := width - 1;
      BigEncodesBack(data, offset, w);
      var n, rest := BigAt(data, offset, width), BigAt(data, offset, w);
      assert n / 256 == rest && n % 256 == data[offset + w];
      forall i | 0 <= i < width ensures Enc(Big, n, width)[i] == data[offset..offset + width][i] {
        assert Enc(Big, n, width)[i] == Digit(n, w - i) && data[offset..offset + width][i] == data[offset + i];
        if i < w {
          assert Digit(n, w - i) == Digit(rest, w - 1 - i) == Enc(Big, rest, w)[i] == data[offset..offset + w][i];
        }
      }
    }
  }

  lemma NumReadsBack(e: Endian, data: Bytes, offset: nat, n: nat)
    requires offset + 4 <= |data| && n < U32 && data[offset..offset + 4] == Enc(e, n, 4)
    ensures U32At(e, data, offset) == n
  {
    Bounds();
    if e.Little? { ReadsBack(data, offset, n, 4); } else { BigReadsBack(data, offset, n, 4); }
  }

  lemma NumReadsBack64(e: Endian, data: Bytes, offset: nat, n: nat)
    requires offset + 8 <= |data| && n < U64 && data[offset..offset + 8] == Enc(e, n, 8)
    ensures Num(e, data, offset, 8) == n
  {
    Bounds();
    if e.Little? { ReadsBack(data, offset, n, 8); } else { BigReadsBack(data, offset, n, 8); }
  }

  lemma NumEncodesBack(e: Endian, data: Bytes, offset: nat)
    requires offset + 4 <= |data|
    ensures U32At(e, data, offset) < U32 && Enc(e, U32At(e, data, offset), 4) == data[offset..offset + 4]
  {
    Bounds();
    if e.Little? { EncodesBack(data, offset, 4); } else { BigEncodesBack(data, offset, 4); }
  }

  // ----- the load-command walk -----

  /** One accepted load command: where it is. */
  datatype Command = Command(start: nat, kind: nat, size: nat)

  datatype Trouble = HeaderBeyondRegion | InvalidSize

  datatype Walked = Walked(commands: seq<Command>, stop: nat, trouble: Option<Trouble>)

  /** Up to count commands from cursor on, none of them beyond end. */
  function Walk(e: Endian, data: Bytes, cursor: nat, end: nat, count: nat): (r: Walked)
    requires cursor <= end <= |data|
    ensures cursor <= r.stop <= end
    decreases |data| - cursor
  {
    if count == 0 then Walked([], cursor, None)
    else if cursor + 8 > end then Walked([], cursor, Some(HeaderBeyondRegion))
    else
      var size := U32At(e, data, cursor + 4);
      if size < 8 || cursor + size > end then Walked([], cursor, Some(InvalidSize))
      else
        var rest := Walk(e, data, cursor + size, end, count - 1);
        Walked([Command(cursor, U32At(e, data, cursor), size)] + rest.commands, rest.stop, rest.trouble)
  }

  /** The commands follow one another without gaps, from the first to the last byte. */
  ghost predicate Consecutive(commands: seq<Command>, from: nat, to: nat) {
    if commands == [] then from == to
    else commands[0].start == from && commands[0].size >= 8 && Consecutive(commands[1..], from + commands[0].size, to)
  }

  /** Accepted commands are consecutive and stay inside the region; all are accepted exactly when there is no trouble.
   */
  lemma {:induction false} WalkIsConsecutive(e: Endian, data: Bytes, cursor: nat, end: nat, count: nat)
    requires cursor <= end <= |data|
    ensures var w := Walk(e, data, cursor, end, count);
            && Consecutive(w.commands, cursor, w.stop) && cursor <= w.stop <= end
            && |w.commands| <= count && (w.trouble == None <==> |w.commands| == count)
    decreases |data| - cursor
  {
    var w := Walk(e, data, cursor, end, count);
    if w.commands != [] {
      var next := cursor + w.commands[0].size;
      WalkIsConsecutive(e, data, next, end, count - 1);
      assert w.commands[1..] == Walk(e, data, next, end, count - 1).commands;
    }
  }

  lemma {:induction false} ConsecutiveAt(commands: seq<Command>, from: nat, to: nat, i: nat)
    requires Consecutive(commands, from, to) && i < |commands|
    ensures from <= commands[i].start && commands[i].start + commands[i].size <= to && commands[i].size >= 8
    ensures i + 1 < |commands| ==> commands[i + 1].start == commands[i].start + commands[i].size
    decreases |commands|
  {
    ConsecutiveEnds(commands[1..], from + commands[0].size, to);
    if i > 0 {
      ConsecutiveAt(commands[1..], from + commands[0].size, to, i - 1);
      assert commands[i] == commands[1..][i - 1];
    } else if |commands| > 1 {
      assert commands[1] == commands[1..][0];
    }
  }

  lemma {:induction false} ConsecutiveEnds(commands: seq<Command>, from: nat, to: nat)
    requires Consecutive(commands, from, to)
    ensures from <= to
    decreases |commands|
  {
    if commands != [] { ConsecutiveEnds(commands[1..], from + commands[0].size, to); }
  }

  /** Two accepted commands share no byte. */
  lemma {:induction false} CommandsAreDisjoint(commands: seq<Command>, from: nat, to: nat, i: nat, j: nat)
    requires Consecutive(commands, from, to) && i < j < |commands|
    ensures commands[i].start + commands[i].size <= commands[j].start
    decreases |commands|
  {
    if i == 0 {
      ConsecutiveAt(commands[1..], from + commands[0].size, to, j - 1);
      assert commands[j] == commands[1..][j - 1];
    } else {
      CommandsAreDisjoint(commands[1..], from + commands[0].size, to, i - 1, j - 1);
      assert commands[i] == commands[1..][i - 1] && commands[j] == commands[1..][j - 1];
    }
  }

  /** A load command as it is written: its kind, its size, its body. */
  datatype Written = Written(kind: nat, body: Bytes) {
    ghost predicate Encodable() { kind < U32 && |body| + 8 < U32 }

    function Encoded(e: Endian): Bytes { Enc(e, kind, 4) + Enc(e, |body| + 8, 4) + body }
  }

  ghost predicate AllEncodable(written: seq<Written>) {
    forall w {:trigger w.Encodable()} :: w in written ==> w.Encodable()
  }

  function EncodeAll(e: Endian, written: seq<Written>): Bytes {
    if written == [] then [] else written[0].Encoded(e) + EncodeAll(e, written[1..])
  }

  /** What the walk should find of written commands. */
  function Placed(written: seq<Written>, from: nat): seq<Command> {
    if written == [] then []
    else [Command(from, written[0].kind, |written[0].body| + 8)] + Placed(written[1..], from + |written[0].body| + 8)
  }

  lemma FirstIsRead(e: Endian, data: Bytes, cursor: nat, end: nat, w: Written, rest: Bytes)
    requires cursor <= end <= |data| && data[cursor..end] == w.Encoded(e) + rest && w.Encodable()
    ensures var next := cursor + |w.body| + 8;
            && next <= end && U32At(e, data, cursor) == w.kind && U32At(e, data, cursor + 4) == |w.body| + 8
            && data[cursor + 8..next] == w.body && data[next..end] == rest
  {
    Apart(data, cursor, end, Enc(e, w.kind, 4), Enc(e, |w.body| + 8, 4), w.body, rest);
    NumReadsBack(e, data, cursor, w.kind);
    NumReadsBack(e, data, cursor + 4, |w.body| + 8);
  }

  lemma Apart(data: Bytes, from: nat, to: nat, a: Bytes, b: Bytes, c: Bytes, d: Bytes)
    requires from <= to <= |data| && data[from..to] == a + b + c + d
    ensures from + |a| + |b| + |c| + |d| == to
    ensures data[from..from + |a|] == a && data[from + |a|..from + |a| + |b|] == b
    ensures data[from + |a| + |b|..from + |a| + |b| + |c|] == c && data[from + |a| + |b| + |c|..to] == d
  {
    assert a + b + c + d == a + (b + (c + d));
    TakeOff(data, from, to, a, b + (c + d));
    TakeOff(data, from + |a|, to, b, c + d);
    TakeOff(data, from + |a| + |b|, to, c, d);
  }

  lemma TakeOff(data: Bytes, from: nat, to: nat, a: Bytes, rest: Bytes)
    requires from <= to <= |data| && data[from..to] == a + rest
    ensures from + |a| <= to && data[from..from + |a|] == a && data[from + |a|..to] == rest
  {
    assert |data[from..to]| == |a| + |rest|;
    assert data[from..to][..|a|] == data[from..from + |a|];
    assert data[from..to][|a|..] == data[from + |a|..to];
  }

  lemma WalkStep(e: Endian, data: Bytes, cursor: nat, end: nat, count: nat, kind: nat, size: nat)
    requires cursor + 8 <= end <= |data| && count > 0 && 8 <= size && cursor + size <= end
    requires U32At(e, data, cursor) == kind && U32At(e, data, cursor + 4) == size
    ensures var rest := Walk(e, data, cursor + size, end, count - 1);
            Walk(e, data, cursor, end, count) == Walked([Command(cursor, kind, size)] + rest.commands, rest.stop,
                                                        rest.trouble)
  {
  }

  /** The bytes between two places start with these commands and go on with the rest. */
  ghost function StartsWith(e: Endian, data: Bytes, end: nat, rest: Bytes): (nat, seq<Written>) -> bool {
    (cursor: nat, written: seq<Written>) =>
      cursor <= end <= |data| && data[cursor..end] == EncodeAll(e, written) + rest && AllEncodable(written)
  }

  lemma FirstIsTaken(e: Endian, data: Bytes, cursor: nat, end: nat, written: seq<Written>, rest: Bytes)
    requires StartsWith(e, data, end, rest)(cursor, written) && written != []
    ensures var next := cursor + |written[0].body| + 8;
            && next <= end <= |data|
            && U32At(e, data, cursor) == written[0].kind && U32At(e, data, cursor + 4) == |written[0].body| + 8
            && StartsWith(e, data, end, rest)(next, written[1..])
  {
    var w, more := written[0], EncodeAll(e, written[1..]);
    assert data[cursor..end] == EncodeAll(e, written) + rest && AllEncodable(written);
    assert w.Encodable();
    Regroup(w.Encoded(e), more, rest);
    FirstIsRead(e, data, cursor, end, w, more + rest);
  }

  /** Written commands are found again, in either byte order, whatever follows them in the region. */
  lemma WalkReadsBack(e: Endian, data: Bytes, cursor: nat, end: nat, written: seq<Written>, rest: Bytes)
    requires cursor <= end <= |data| && data[cursor..end] == EncodeAll(e, written) + rest && AllEncodable(written)
    ensures Walk(e, data, cursor, end, |written|) == Walked(Placed(written, cursor), end - |rest|, None)
  {
    assert |data[cursor..end]| == |EncodeAll(e, written)| + |rest|;
    assert StartsWith(e, data, end, rest)(cursor, written);
    var walk, stands, stop: nat := WalkFrom(e, data, end), StartsWith(e, data, end, rest), end - |rest|;
    forall c: nat, ws ensures ReadsAt(walk, stands, stop, c, ws) {
      WalkReadsAt(e, data, end, rest, c, ws);
    }
    ReadsAll(walk, stands, stop, cursor, written);
  }

  // The two inductions along a walk, about any walk and any statement about what is walked over.

  type Walker = (nat, nat) -> Walked

  ghost function WalkFrom(e: Endian, data: Bytes, end: nat): Walker
    requires end <= |data|
  {
    (cursor: nat, count: nat) => if cursor <= end then Walk(e, data, cursor, end, count) else Walked([], cursor, None)
  }

  function Behind(w: Written, cursor: nat): nat { cursor + |w.body| + 8 }

  /** If the written commands stand at the place, the walk takes the first of them and the others stand behind it. */
  ghost predicate ReadsAt(walk: Walker, stands: (nat, seq<Written>) -> bool, stop: nat, cursor: nat,
                          written: seq<Written>) {
    stands(cursor, written) ==>
      if written == [] then walk(cursor, 0) == Walked([], stop, None)
      else
        var next := Behind(written[0], cursor);
        var behind := walk(next, |written| - 1);
        && stands(next, written[1..])
        && (behind == Walked(behind.commands, stop, None) ==>
              walk(cursor, |written|) == Walked([Command(cursor, written[0].kind, next - cursor)] + behind.commands,
                                                stop, None))
  }

  lemma {:induction false} ReadsAll(walk: Walker, stands: (nat, seq<Written>) -> bool, stop: nat, cursor: nat,
                                    written: seq<Written>)
    requires forall c: nat, ws :: ReadsAt(walk, stands, stop, c, ws)
    requires stands(cursor, written)
    ensures walk(cursor, |written|) == Walked(Placed(written, cursor), stop, None)
    decreases |written|
  {
    assert ReadsAt(walk, stands, stop, cursor, written);
    if written != [] {
      ReadsAll(walk, stands, stop, Behind(written[0], cursor), written[1..]);
    }
  }

  lemma WalkReadsAt(e: Endian, data: Bytes, end: nat, rest: Bytes, cursor: nat, written: seq<Written>)
    requires |rest| <= end <= |data|
    ensures ReadsAt(WalkFrom(e, data, end), StartsWith(e, data, end, rest), end - |rest|, cursor, written)
  {
    if StartsWith(e, data, end, rest)(cursor, written) {
      assert cursor <= end;
      if written == [] {
        NothingRead(e, data, cursor, end, rest);
      } else {
        var w, next := written[0], Behind(written[0], cursor);
        FirstIsTaken(e, data, cursor, end, written, rest);
        var behind := Walk(e, data, next, end, |written| - 1);
        if behind == Walked(behind.commands, end - |rest|, None) {
          OneMoreRead(e, data, cursor, end, |written|, w.kind, next - cursor, behind.commands, end - |rest|);
        }
      }
    }
  }

  lemma NothingRead(e: Endian, data: Bytes, cursor: nat, end: nat, rest: Bytes)
    requires cursor <= end <= |data| && StartsWith(e, data, end, rest)(cursor, [])
    ensures |rest| == end - cursor && Walk(e, data, cursor, end, 0) == Walked([], cursor, None)
  {
    assert data[cursor..end] == EncodeAll(e, []) + rest == rest;
  }

  lemma OneMoreRead(e: Endian, data: Bytes, cursor: nat, end: nat, count: nat, kind: nat, size: nat,
                    placed: seq<Command>, stop: nat)
    requires cursor + 8 <= end <= |data| && count > 0 && 8 <= size && cursor + size <= end
    requires U32At(e, data, cursor) == kind && U32At(e, data, cursor + 4) == size
    requires Walk(e, data, cursor + size, end, count - 1) == Walked(placed, stop, None)
    ensures Walk(e, data, cursor, end, count) == Walked([Command(cursor, kind, size)] + placed, stop, None)
  {
    WalkStep(e, data, cursor, end, count, kind, size);
  }

  /** What an accepted command encodes. */
  function WrittenAt(e: Endian, data: Bytes, cursor: nat, size: nat): Written
    requires 8 <= size && cursor + size <= |data|
  {
    Written(U32At(e, data, cursor), data[cursor + 8..cursor + size])
  }

  lemma CommandIsEncoded(e: Endian, data: Bytes, cursor: nat)
    requires cursor + 8 <= |data| && 8 <= U32At(e, data, cursor + 4) && cursor + U32At(e, data, cursor + 4) <= |data|
    ensures var size := U32At(e, data, cursor + 4);
            var w := WrittenAt(e, data, cursor, size);
            w.Encodable() && data[cursor..cursor + size] == w.Encoded(e)
  {
    NumEncodesBack(e, data, cursor);
    NumEncodesBack(e, data, cursor + 4);
    SplitAt(data, cursor, cursor + 4, cursor + 8);
    SplitAt(data, cursor, cursor + 8, cursor + U32At(e, data, cursor + 4));
  }

  /** A walk that accepted a command took the first one and went on behind it. */
  lemma WalkTook(e: Endian, data: Bytes, cursor: nat, end: nat, count: nat) returns (size: nat)
    requires cursor <= end <= |data| && Walk(e, data, cursor, end, count).commands != []
    ensures count > 0 && cursor + 8 <= end && size == U32At(e, data, cursor + 4) >= 8 && cursor + size <= end
    ensures var w, rest := Walk(e, data, cursor, end, count), Walk(e, data, cursor + size, end, count - 1);
            |w.commands| == 1 + |rest.commands| && w.stop == rest.stop
  {
    size := U32At(e, data, cursor + 4);
    WalkStep(e, data, cursor, end, count, U32At(e, data, cursor), size);
  }

  /** What stands between two places is the encoding of these commands. */
  ghost function Encodes(e: Endian, data: Bytes): (nat, nat, seq<Written>) -> bool {
    (cursor: nat, stop: nat, written: seq<Written>) =>
      cursor <= stop <= |data| && data[cursor..stop] == EncodeAll(e, written) && AllEncodable(written)
  }

  /** A walk accepts nothing, or one command and then what the walk behind it accepts. */
  ghost predicate EncodesAt(walk: Walker, encodes: (nat, nat, seq<Written>) -> bool, end: nat, cursor: nat, count: nat)
    {
    || (walk(cursor, count).commands == [] && encodes(cursor, walk(cursor, count).stop, []))
    || exists w :: Takes(walk, encodes, end, cursor, count, w)
  }

  ghost predicate Takes(walk: Walker, encodes: (nat, nat, seq<Written>) -> bool, end: nat, cursor: nat, count: nat,
                        w: Written) {
    var next := Behind(w, cursor);
    && count > 0 && next <= end && |walk(cursor, count).commands| == 1 + |walk(next, count - 1).commands|
    && walk(cursor, count).stop == walk(next, count - 1).stop
    && forall stop, rest :: encodes(next, stop, rest) ==> encodes(cursor, stop, [w] + rest)
  }

  lemma {:induction false} EncodesWalked(walk: Walker, encodes: (nat, nat, seq<Written>) -> bool, end: nat,
                                         cursor: nat, count: nat)
    returns (written: seq<Written>)
    requires forall c: nat, n: nat :: c <= end ==> EncodesAt(walk, encodes, end, c, n)
    requires cursor <= end
    ensures |written| == |walk(cursor, count).commands| && encodes(cursor, walk(cursor, count).stop, written)
    decreases count
  {
    assert EncodesAt(walk, encodes, end, cursor, count);
    if walk(cursor, count).commands == [] && encodes(cursor, walk(cursor, count).stop, []) {
      written := [];
    } else {
      var w :| Takes(walk, encodes, end, cursor, count, w);
      var rest := EncodesWalked(walk, encodes, end, Behind(w, cursor), count - 1);
      written := [w] + rest;
    }
  }

  lemma WalkEncodesAt(e: Endian, data: Bytes, end: nat, cursor: nat, count: nat)
    requires cursor <= end <= |data|
    ensures EncodesAt(WalkFrom(e, data, end), Encodes(e, data), end, cursor, count)
  {
    if Walk(e, data, cursor, end, count).commands == [] {
      NothingEncoded(e, data, cursor);
    } else {
      var size := WalkTook(e, data, cursor, end, count);
      var w := WrittenAt(e, data, cursor, size);
      forall stop, rest | Encodes(e, data)(Behind(w, cursor), stop, rest)
          ensures Encodes(e, data)(cursor, stop, [w] + rest) {
        OneMoreEncoded(e, data, cursor, cursor + size, stop, rest);
      }
      assert Takes(WalkFrom(e, data, end), Encodes(e, data), end, cursor, count, w);
    }
  }

  lemma WalkIsEncoded(e: Endian, data: Bytes, cursor: nat, end: nat, count: nat) returns (written: seq<Written>)
    requires cursor <= end <= |data|
    ensures var w := Walk(e, data, cursor, end, count);
            |written| == |w.commands| && AllEncodable(written) && data[cursor..w.stop] == EncodeAll(e, written)
  {
    var walk, encodes := WalkFrom(e, data, end), Encodes(e, data);
    forall c: nat, n: nat | c <= end ensures EncodesAt(walk, encodes, end, c, n) {
      WalkEncodesAt(e, data, end, c, n);
    }
    written := EncodesWalked(walk, encodes, end, cursor, count);
    assert Encodes(e, data)(cursor, Walk(e, data, cursor, end, count).stop, written);
  }

  lemma NothingEncoded(e: Endian, data: Bytes, cursor: nat)
    requires cursor <= |data|
    ensures Encodes(e, data)(cursor, cursor, [])
  {
    assert data[cursor..cursor] == EncodeAll(e, []) && AllEncodable([]);
  }

  lemma OneMoreEncoded(e: Endian, data: Bytes, cursor: nat, next: nat, stop: nat, rest: seq<Written>)
    requires cursor + 8 <= next <= |data| && next == cursor + U32At(e, data, cursor + 4)
    requires Encodes(e, data)(next, stop, rest)
    ensures Encodes(e, data)(cursor, stop, [WrittenAt(e, data, cursor, next - cursor)] + rest)
  {
    assert next <= stop <= |data| && data[next..stop] == EncodeAll(e, rest) && AllEncodable(rest);
    var written := [WrittenAt(e, data, cursor, next - cursor)] + rest;
    CommandIsEncoded(e, data, cursor);
    SplitAt(data, cursor, next, stop);
    assert written[1..] == rest;
    assert data[cursor..stop] == EncodeAll(e, written) && AllEncodable(written);
  }

  ghost predicate HoldsCommands(e: Endian, region: Bytes, count: nat) {
    exists written, rest :: region == EncodeAll(e, written) + rest && |written| == count && AllEncodable(written)
  }

  /** The declared number of commands is accepted if and only if the region starts with that many well-formed ones. */
  lemma AcceptsExactly(e: Endian, data: Bytes, cursor: nat, end: nat, count: nat)
    requires cursor <= end <= |data|
    ensures Walk(e, data, cursor, end, count).trouble == None <==> HoldsCommands(e, data[cursor..end], count)
  {
    var w := Walk(e, data, cursor, end, count);
    WalkIsConsecutive(e, data, cursor, end, count);
    if w.trouble == None {
      var written := WalkIsEncoded(e, data, cursor, end, count);
      SplitAt(data, cursor, w.stop, end);
    }
    if HoldsCommands(e, data[cursor..end], count) {
      var written, rest :| data[cursor..end] == EncodeAll(e, written) + rest && |written| == count
          && AllEncodable(written);
      WalkReadsBack(e, data, cursor, end, written, rest);
    }
  }

  // ----- small things -----

  /** The position of the first NUL from i on, or |data|. */
  function NulFrom(data: Bytes, i: nat): (r: nat)
    requires i <= |data|
    ensures i <= r <= |data| && (r < |data| ==> data[r] == 0) && forall k :: i <= k < r ==> data[k] != 0
    decreases |data| - i
  {
    if i == |data| || data[i] == 0 then i else NulFrom(data, i + 1)
  }

  function UpToNul(data: Bytes): Bytes { data[..NulFrom(data, 0)] }

  function With<T(==)>(names: seq<T>, name: Option<T>): seq<T> {
    if name.Some? && name.value !in names then names + [name.value] else names
  }

  ghost predicate NoRepeats<T>(s: seq<T>) {
    forall i, j :: 0 <= i < j < |s| ==> s[i] != s[j]
  }

  lemma WithHolds<T>(names: seq<T>, name: Option<T>)
    requires NoRepeats(names)
    ensures NoRepeats(With(names, name))
    ensures forall d :: d in With(names, name) <==> d in names || name == Some(d)
  {
  }

  // ----- the result object -----

  datatype Section = Section(segment: string, name: string, size: nat, offset: nat)

  datatype Symtab = Symtab(symbolOffset: nat, symbolCount: nat, stringOffset: nat, stringSize: nat)

  datatype Status = NotAttempted | Truncated | PartialResult

  datatype MetadataStatus = NotLooked | Parsed | PartlyParsed

  datatype FieldMetadata = FieldMetadata(typeName: string, fieldName: string, isIndirectCase: bool, isVar: bool,
                                         isArtificial: bool)

  datatype FieldType = FieldType(typeName: string, fieldName: string, mangled: string)

  class MachoAnalysisResult {
    var parseStatus: Status
    var parseErrors: seq<string>
    var loadCommandsCount: nat
    var sections: seq<Section>
    var importedDylibs: seq<string>
    var symbolNames: seq<string>
    var typeNames: seq<string>
    var typeFields: seq<(string, seq<string>)>
    var fieldTypes: seq<FieldType>
    var fieldMetadata: seq<FieldMetadata>
    var typeStatus: MetadataStatus
    var protocolNames: seq<string>
    var protocolStatus: MetadataStatus
    var conformances: seq<(string, string)>
    var conformanceStatus: MetadataStatus

    constructor ()
      ensures parseStatus == NotAttempted && parseErrors == [] && loadCommandsCount == 0
      ensures sections == [] && importedDylibs == [] && symbolNames == []
      ensures typeNames == [] && typeFields == [] && fieldTypes == [] && fieldMetadata == [] && protocolNames == []
              && conformances == []
      ensures typeStatus == protocolStatus == conformanceStatus == NotLooked
    {
      parseStatus, parseErrors, loadCommandsCount := NotAttempted, [], 0;
      sections, importedDylibs, symbolNames := [], [], [];
      typeNames, typeFields, fieldTypes, fieldMetadata, protocolNames, conformances := [], [], [], [], [], [];
      typeStatus, protocolStatus, conformanceStatus := NotLooked, NotLooked, NotLooked;
    }
  }
}
