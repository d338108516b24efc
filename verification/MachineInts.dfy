/**
 The fixed-width unsigned integers of the source, as ranges of `int`, together
 with the bit operations the source applies to them. A single-bit mask is tested
 and set with HasBit and SetBit; a low mask `2^k - 1` is a remainder.
 */
module MachineInts {

  const U32_LIMIT := 0x1_0000_0000

  type u8 = x: int | 0 <= x < 0x100
  type u16 = x: int | 0 <= x < 0x1_0000
  type u32 = x: int | 0 <= x < 0x1_0000_0000
  type u64 = x: int | 0 <= x < 0x1_0000_0000_0000_0000

  predicate HasBit(x: u32, bit: u32)
    requires bit > 0
  {
    x / bit % 2 == 1
  }

  /** `x | bit` for a bit that is clear in `x`. */
  function SetBit(x: u32, bit: u32): (r: int)
    requires bit > 0
  {
    if HasBit(x, bit) then x else x + bit
  }

  /** The little-endian bytes of `v`. */
  function ToLe(v: u32): (r: seq<u8>)
    ensures |r| == 4
  {
    [v % 0x100, v / 0x100 % 0x100, v / 0x1_0000 % 0x100, v / 0x100_0000]
  }

  function FromLe(b: seq<u8>, offset: nat): (r: u32)
    requires offset + 4 <= |b|
  {
    var b0: int, b1: int, b2: int, b3: int := b[offset], b[offset + 1], b[offset + 2], b[offset + 3];
    b0 + 0x100 * b1 + 0x1_0000 * b2 + 0x100_0000 * b3
  }

  lemma FromLeToLe(v: u32)
    ensures FromLe(ToLe(v), 0) == v
  {
    Digit(v);
    Digit(v / 0x100);
    Digit(v / 0x1_0000);
    assert v / 0x1_0000 == v / 0x100 / 0x100 && v / 0x100_0000 == v / 0x1_0000 / 0x100;
  }

  /** The least significant byte comes first. */
  lemma LeastFirst(v: u32)
    ensures var b: seq<int> := ToLe(v); v == b[0] + 0x100 * b[1] + 0x1_0000 * b[2] + 0x100_0000 * b[3]
  {
    FromLeToLe(v);
  }

  lemma Digit(v: nat)
    ensures v == v % 0x100 + 0x100 * (v / 0x100)
  {
  }

  lemma ToLeFromLe(b: seq<u8>, offset: nat)
    requires offset + 4 <= |b|
    ensures ToLe(FromLe(b, offset)) == b[offset..offset + 4]
  {
    var v: int, b1: int, b2: int, b3: int := FromLe(b, offset), b[offset + 1], b[offset + 2], b[offset + 3];
    assert v / 0x100 == b1 + 0x100 * b2 + 0x1_0000 * b3;
    assert v / 0x1_0000 == b2 + 0x100 * b3;
    assert v / 0x100_0000 == b3;
    assert v % 0x100 == b[offset] && v / 0x100 % 0x100 == b1 && v / 0x1_0000 % 0x100 == b2;
  }

  /** A buffer with a part of it replaced. */
  function Overwritten(buffer: seq<u8>, offset: nat, slice: seq<u8>): seq<u8>
    requires offset + |slice| <= |buffer|
  {
    buffer[..offset] + slice + buffer[offset + |slice|..]
  }

  lemma OneMoreByte(buffer: seq<u8>, offset: nat, slice: seq<u8>, i: nat)
    requires offset + |slice| <= |buffer| && i < |slice|
    ensures Overwritten(buffer, offset, slice[..i + 1]) ==
      Overwritten(buffer, offset, slice[..i])[offset + i := slice[i]]
  {
    assert slice[..i + 1] == slice[..i] + [slice[i]];
    assert buffer[offset + i..] == [buffer[offset + i]] + buffer[offset + i + 1..];
  }

  /** Writes the little-endian bytes of `value` over four bytes of a buffer. */
  method PutU32(bytes: array<u8>, offset: nat, value: u32)
    requires offset + 4 <= bytes.Length
    modifies bytes
    ensures bytes[..] == Overwritten(old(bytes[..]), offset, ToLe(value))
  {
    bytes[offset] := value % 0x100;
    bytes[offset + 1] := value / 0x100 % 0x100;
    bytes[offset + 2] := value / 0x1_0000 % 0x100;
    bytes[offset + 3] := value / 0x100_0000;
  }

  /** Copies a slice over part of a buffer. */
  method CopySlice(bytes: array<u8>, offset: nat, slice: seq<u8>)
    requires offset + |slice| <= bytes.Length
    modifies bytes
    ensures bytes[..] == Overwritten(old(bytes[..]), offset, slice)
  {
    for i := 0 to |slice|
      invariant bytes[..] == Overwritten(old(bytes[..]), offset, slice[..i])
    {
      ghost var before := bytes[..];
      bytes[offset + i] := slice[i];
      assert bytes[..] == before[offset + i := slice[i]];
      OneMoreByte(old(bytes[..]), offset, slice, i);
    }
  }
}
