/** Bytes as runs of bits, least significant bit first: the order in which the codec
    writes bytes into a carrier and in which its CRC consumes them. */
module Bits {

  type Byte = bv8

  /** Bit `i` of a byte; bit 0 is the least significant one. */
  predicate Bit(b: Byte, i: nat)
    requires i < 8
  {
    (b >> i) & 1 == 1
  }

  /** The byte whose eight bits are given, least significant first. */
  function Pack(bits: seq<bool>): (b: Byte)
    requires |bits| == 8
    ensures forall i :: 0 <= i < 8 ==> Bit(b, i) == bits[i]
  {
    (if bits[0] then 1 else 0) | (if bits[1] then 2 else 0) |
    (if bits[2] then 4 else 0) | (if bits[3] then 8 else 0) |
    (if bits[4] then 16 else 0) | (if bits[5] then 32 else 0) |
    (if bits[6] then 64 else 0) | (if bits[7] then 128 else 0)
  }

  /** The bit stream of a byte string. */
  function ToBits(data: seq<Byte>): (bits: seq<bool>)
    ensures |bits| == 8 * |data|
  {
    seq(8 * |data|, k requires 0 <= k < 8 * |data| => Bit(data[k / 8], k % 8))
  }

  /** The whole bytes held by a bit stream; up to seven left-over bits are dropped. */
  function ToBytes(bits: seq<bool>): (data: seq<Byte>)
    ensures |data| == |bits| / 8
  {
    seq(|bits| / 8, j requires 0 <= j < |bits| / 8 => Pack(bits[8 * j..8 * j + 8]))
  }

  /** A byte is determined by its bits. */
  lemma SameBits(a: Byte, b: Byte)
    requires forall i :: 0 <= i < 8 ==> Bit(a, i) == Bit(b, i)
    ensures a == b
  {
    assert Bit(a, 0) == Bit(b, 0) && Bit(a, 1) == Bit(b, 1) && Bit(a, 2) == Bit(b, 2) && Bit(a, 3) == Bit(b, 3);
    assert Bit(a, 4) == Bit(b, 4) && Bit(a, 5) == Bit(b, 5) && Bit(a, 6) == Bit(b, 6) && Bit(a, 7) == Bit(b, 7);
  }

  /** Bit `i` of byte `j` of a packed stream is bit 8j + i of the stream. */
  lemma ByteBit(bits: seq<bool>, j: nat, i: nat)
    requires 8 * j + 8 <= |bits| && i < 8
    ensures Bit(ToBytes(bits)[j], i) == bits[8 * j + i]
  {
  }

  lemma BitPosition(j: nat, i: nat)
    requires i < 8
    ensures (8 * j + i) / 8 == j && (8 * j + i) % 8 == i
  {
  }

  lemma WrittenByte(data: seq<Byte>, rest: seq<bool>, j: nat)
    requires j < |data|
    ensures ToBytes(ToBits(data) + rest)[j] == data[j]
  {
    hide Bit, Pack, ToBytes;
    var s := ToBits(data) + rest;
    forall i | 0 <= i < 8
      ensures Bit(ToBytes(s)[j], i) == Bit(data[j], i)
    {
      ByteBit(s, j, i);
      BitPosition(j, i);
    }
    SameBits(ToBytes(s)[j], data[j]);
  }

  /** Reading back a stream that begins with the bits of `data` gives bytes that begin
      with `data`, whatever follows. */
  lemma WrittenBytesAreRead(data: seq<Byte>, rest: seq<bool>)
    ensures |data| <= |ToBytes(ToBits(data) + rest)|
    ensures ToBytes(ToBits(data) + rest)[..|data|] == data
  {
    hide ToBytes, ToBits;
    forall j | 0 <= j < |data|
      ensures ToBytes(ToBits(data) + rest)[j] == data[j]
    {
      WrittenByte(data, rest, j);
    }
  }

  /** Conversely, a stream whose bytes begin with `data` begins with the bits of `data`. */
  lemma ReadBytesWereWritten(bits: seq<bool>, n: nat)
    requires n <= |bits| / 8
    ensures ToBits(ToBytes(bits)[..n]) == bits[..8 * n]
  {
    hide Bit, Pack;
    forall k | 0 <= k < 8 * n
      ensures ToBits(ToBytes(bits)[..n])[k] == bits[k]
    {
      ByteBit(bits, k / 8, k % 8);
    }
  }

  /** Packing a prefix gives a prefix: shorter and longer extractions agree. */
  lemma PrefixBytes(bits: seq<bool>, n: nat)
    requires n <= |bits| / 8
    ensures ToBytes(bits[..8 * n]) == ToBytes(bits)[..n]
  {
    forall j | 0 <= j < n
      ensures ToBytes(bits[..8 * n])[j] == ToBytes(bits)[j]
    {
      assert bits[..8 * n][8 * j..8 * j + 8] == bits[8 * j..8 * j + 8];
    }
  }
}
