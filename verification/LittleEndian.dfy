/** Fixed-width little-endian numbers. */
module LittleEndian {
  type byte = b: nat | b < 256

  type Bytes = seq<byte>

  function Bound(width: nat): nat {
    if width == 0 then 1 else 256 * Bound(width - 1)
  }

  function Digit(n: nat, i: nat): byte {
    if i == 0 then n % 256 else Digit(n / 256, i - 1)
  }

  function Encode(n: nat, width: nat): (r: Bytes)
    ensures |r| == width
  {
    seq(width, i requires 0 <= i => Digit(n, i))
  }

  function ReadAt(data: Bytes, offset: nat, width: nat): nat
    requires offset + width <= |data|
    decreases |data| - offset
  {
    if width == 0 then 0 else data[offset] + 256 * ReadAt(data, offset + 1, width - 1)
  }

  /** What was encoded is read back. */
  lemma {:induction false} ReadsBack(data: Bytes, offset: nat, n: nat, width: nat)
    requires offset + width <= |data| && n < Bound(width) && data[offset..offset + width] == Encode(n, width)
    ensures ReadAt(data, offset, width) == n
    decreases width
  {
    if width > 0 {
      var here := data[offset..offset + width];
      assert data[offset] == here[0] == Digit(n, 0);
      assert here[1..] == Encode(n / 256, width - 1) by {
        forall i | 0 <= i < width - 1 ensures here[1..][i] == Digit(n / 256, i)
            { assert here[1..][i] == Digit(n, i + 1); }
      }
      assert data[offset + 1..offset + width] == here[1..];
      ReadsBack(data, offset + 1, n / 256, width - 1);
    }
  }

  /** What is read fits, and encodes to what was there. */
  lemma {:induction false} EncodesBack(data: Bytes, offset: nat, width: nat)
    requires offset + width <= |data|
    ensures ReadAt(data, offset, width) < Bound(width)
    ensures Encode(ReadAt(data, offset, width), width) == data[offset..offset + width]
    decreases width
  {
    if width > 0 {
      EncodesBack(data, offset + 1, width - 1);
      var n, rest := ReadAt(data, offset, width), ReadAt(data, offset + 1, width - 1);
      assert n / 256 == rest && n % 256 == data[offset];
      forall i | 0 <= i < width ensures Digit(n, i) == data[offset + i] {
        if i > 0 { assert Digit(rest, i - 1) == Encode(rest, width - 1)[i - 1]
                  == data[offset + 1..offset + width][i - 1]; }
      }
    }
  }

  const U32: nat := 0x1_0000_0000
  const U64: nat := 0x1_0000_0000_0000_0000

  lemma Bounds()
    ensures Bound(4) == U32 && Bound(8) == U64
  {
    assert Bound(2) == 0x1_0000;
    assert Bound(4) == 256 * 256 * Bound(2);
    assert Bound(6) == 256 * 256 * Bound(4);
    assert Bound(8) == 256 * 256 * Bound(6);
  }

  lemma ReadsBack32(data: Bytes, offset: nat, n: nat)
    requires offset + 4 <= |data| && n < U32 && data[offset..offset + 4] == Encode(n, 4)
    ensures ReadAt(data, offset, 4) == n
  {
    Bounds();
    ReadsBack(data, offset, n, 4);
  }

  lemma ReadsBack64(data: Bytes, offset: nat, n: nat)
    requires offset + 8 <= |data| && n < U64 && data[offset..offset + 8] == Encode(n, 8)
    ensures ReadAt(data, offset, 8) == n
  {
    Bounds();
    ReadsBack(data, offset, n, 8);
  }

  lemma EncodesBack32(data: Bytes, offset: nat)
    requires offset + 4 <= |data|
    ensures ReadAt(data, offset, 4) < U32 && Encode(ReadAt(data, offset, 4), 4) == data[offset..offset + 4]
  {
    Bounds();
    EncodesBack(data, offset, 4);
  }

  lemma EncodesBack64(data: Bytes, offset: nat)
    requires offset + 8 <= |data|
    ensures ReadAt(data, offset, 8) < U64 && Encode(ReadAt(data, offset, 8), 8) == data[offset..offset + 8]
  {
    Bounds();
    EncodesBack(data, offset, 8);
  }
}
