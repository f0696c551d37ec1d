/** The pixel buffer and its least-significant-bit channel. */
module Carrier {
  import opened Bits

  const INT_MAX: int := 0x7FFF_FFFF

  /** Alpha, the fourth sample of an RGBA pixel, carries no data. */
  predicate IsDataChannel(channels: int, x: nat) {
    !(channels == 4 && x % 4 == 3)
  }

  /** How many data samples the first `x` samples of a row hold. */
  function InRow(channels: int, x: nat): nat {
    if channels == 4 then 3 * (x / 4) + x % 4 else x
  }

  /** Column of the `r`-th data sample of a row. */
  function Column(channels: int, r: nat): nat {
    if channels == 4 then 4 * (r / 3) + r % 3 else r
  }

  lemma ColumnInverse(channels: int, x: nat)
    requires IsDataChannel(channels, x)
    ensures Column(channels, InRow(channels, x)) == x
  {
  }

  lemma InRowInverse(channels: int, width: nat, r: nat)
    requires channels == 3 || channels == 4
    requires r < 3 * width
    ensures Column(channels, r) < width * channels
    ensures IsDataChannel(channels, Column(channels, r))
    ensures InRow(channels, Column(channels, r)) == r
  {
  }

  /** Item `r` of row `q`, in rows of `d` items. */
  function Cell(q: nat, d: nat, r: nat): nat {
    q * d + r
  }

  function CellRow(k: nat, d: nat): nat {
    if d == 0 then 0 else k / d
  }

  function CellItem(k: nat, d: nat): nat {
    if d == 0 then 0 else k % d
  }

  lemma MulBound(e: int, d: nat)
    ensures e >= 0 ==> e * d >= 0
    ensures e > 0 ==> e * d >= d
    ensures e < 0 ==> e * d <= 0 - d
  {
    if e > 0 {
      assert (e - 1) * d >= 0;
    } else if e < 0 {
      assert (-1 - e) * d >= 0;
    }
  }

  lemma SplitOfCell(q: nat, d: nat, r: nat)
    requires r < d
    ensures CellRow(Cell(q, d, r), d) == q && CellItem(Cell(q, d, r), d) == r
  {
    var n := q * d + r;
    var e := n / d - q;
    assert n == d * (n / d) + n % d;
    assert e * d == r - n % d;
    MulBound(e, d);
  }

  lemma CellOfSplit(k: nat, d: nat, h: nat)
    requires k < Cell(h, d, 0)
    ensures CellRow(k, d) < h && CellItem(k, d) < d && Cell(CellRow(k, d), d, CellItem(k, d)) == k
  {
    assert d > 0;
    var e := k / d - h;
    assert k == d * (k / d) + k % d;
    MulBound(e, d);
  }

  lemma Distributes(a: int, b: int, d: int)
    ensures (a + b) * d == a * d + b * d
  {
  }

  lemma CellBelow(q: nat, d: nat, r: nat, h: nat)
    requires q < h && r < d
    ensures Cell(q, d, r) < Cell(h, d, 0)
  {
    Distributes(q, h - q, d);
    MulBound(h - q, d);
  }

  /** A sample with its lowest bit replaced. */
  function SetLsb(sample: Byte, bit: bool): Byte {
    (sample & 0xFE) | (if bit then 1 else 0)
  }

  /** At most one apart, and equal but for the lowest bit. */
  predicate BarelyChanged(sample: Byte, r: Byte) {
    -1 <= r as int - sample as int <= 1 && forall i :: 1 <= i < 8 ==> Bit(r, i) == Bit(sample, i)
  }

  /** Embedding moves a sample by at most one and touches no bit but the lowest. */
  lemma SetLsbMinimal(sample: Byte, bit: bool)
    ensures Bit(SetLsb(sample, bit), 0) == bit
    ensures BarelyChanged(sample, SetLsb(sample, bit))
  {
    var b := SetLsb(sample, bit);
    assert b == sample
      || (sample & 1 == 0 && b == sample + 1 && b > sample)
      || (sample & 1 == 1 && b == sample - 1 && b < sample);
  }

  lemma SameIsBarelyChanged(sample: Byte)
    ensures BarelyChanged(sample, sample)
  {
  }

  function Lowest(sample: Byte): Byte {
    sample & 1
  }

  lemma LowBit(sample: Byte)
    ensures Lowest(sample) <= 1 && (Lowest(sample) == 1) == Bit(sample, 0)
  {
  }

  lemma ZeroBits()
    ensures forall i :: 0 <= i < 8 ==> !Bit(0, i)
  {
  }

  /** What embedding `data` leaves in an LSB stream: its bits, as far as they fit, then the old stream. */
  function Overlay(data: seq<Byte>, stream: seq<bool>): (r: seq<bool>)
    ensures |r| == |stream|
  {
    if 8 * |data| <= |stream| then ToBits(data) + stream[8 * |data|..] else ToBits(data)[..|stream|]
  }

  /** What extracting `n` bytes from a stream yields: the first 8n bits, with zeros past its end. */
  function Extraction(stream: seq<bool>, n: nat): (data: seq<Byte>)
    ensures |data| == n
  {
    if 8 * n <= |stream| then ToBytes(stream[..8 * n])
    else ToBytes(stream + seq(8 * n - |stream|, i => false))
  }

  /** Bit `k` of an extraction. */
  lemma ExtractionBit(stream: seq<bool>, n: nat, k: nat)
    requires k < 8 * n
    ensures Bit(Extraction(stream, n)[k / 8], k % 8) == (k < |stream| && stream[k])
  {
    hide Bit, Pack;
    if 8 * n <= |stream| {
      ByteBit(stream[..8 * n], k / 8, k % 8);
    } else {
      ByteBit(stream + seq(8 * n - |stream|, i => false), k / 8, k % 8);
    }
  }

  /** `data` holds exactly the bits of `bits`, and zeros after them. */
  ghost predicate Gathered(data: seq<Byte>, bits: seq<bool>) {
    forall j, i :: 0 <= j < |data| && 0 <= i < 8 ==>
      Bit(data[j], i) == (8 * j + i < |bits| && bits[8 * j + i])
  }

  function PutBit(b: Byte, i: nat, bit: Byte): Byte
    requires i < 8
  {
    b | (bit << i)
  }

  /** OR-ing a bit into a position whose byte is still clear from there on sets that bit alone. */
  lemma PutBitSets(b: Byte, i: nat, bit: Byte)
    requires i < 8 && bit <= 1
    requires forall j :: i <= j < 8 ==> !Bit(b, j)
    ensures forall j :: 0 <= j < 8 ==> Bit(PutBit(b, i, bit), j) == if j == i then bit == 1 else Bit(b, j)
  {
  }

  lemma NothingGathered(data: seq<Byte>, stream: seq<bool>)
    requires forall j :: 0 <= j < |data| ==> data[j] == 0
    ensures Gathered(data, stream[..0])
  {
    hide Bit;
    ZeroBits();
  }

  lemma GatherBit(data: seq<Byte>, bits: seq<bool>, bit: Byte)
    requires |bits| < 8 * |data| && bit <= 1 && Gathered(data, bits)
    ensures Gathered(data[|bits| / 8 := PutBit(data[|bits| / 8], |bits| % 8, bit)], bits + [bit == 1])
  {
    hide Bit, PutBit;
    var b, i := |bits| / 8, |bits| % 8;
    PutBitSets(data[b], i, bit);
    var after, grown := data[b := PutBit(data[b], i, bit)], bits + [bit == 1];
    forall j, k | 0 <= j < |data| && 0 <= k < 8
      ensures Bit(after[j], k) == (8 * j + k < |grown| && grown[8 * j + k])
    {
      assert Bit(data[j], k) == (8 * j + k < |bits| && bits[8 * j + k]);
    }
  }

  lemma GatheredAll(data: seq<Byte>, stream: seq<bool>, done: nat)
    requires done <= |stream| && done <= 8 * |data|
    requires done == |stream| || done == 8 * |data|
    requires Gathered(data, stream[..done])
    ensures data == Extraction(stream, |data|)
  {
    hide Bit, Extraction;
    forall j | 0 <= j < |data|
      ensures data[j] == Extraction(stream, |data|)[j]
    {
      forall i | 0 <= i < 8
        ensures Bit(data[j], i) == Bit(Extraction(stream, |data|)[j], i)
      {
        ExtractionBit(stream, |data|, 8 * j + i);
        BitPosition(j, i);
      }
      SameBits(data[j], Extraction(stream, |data|)[j]);
    }
  }

  /** A normalised 8-bit RGB or RGBA image: `height` rows of `width * channels` samples.
      A row has at most INT_MAX samples, so the source's cast of the column to int is exact. */
  class Image {
    const width: nat
    const height: nat
    const channels: int
    const px: array2<Byte>

    ghost predicate Valid() {
      && (channels == 3 || channels == 4)
      && px.Length0 == height
      && px.Length1 == width * channels
      && px.Length1 <= INT_MAX
    }

    constructor (width: nat, height: nat, channels: int, px: array2<Byte>)
      requires channels == 3 || channels == 4
      requires px.Length0 == height && px.Length1 == width * channels && px.Length1 <= INT_MAX
      ensures Valid()
      ensures this.width == width && this.height == height && this.channels == channels && this.px == px
    {
      this.width, this.height, this.channels, this.px := width, height, channels, px;
    }

    function DataChannels(): nat
      requires channels == 3 || channels == 4
    {
      if channels == 4 then 3 else channels
    }

    /** The number of bits the image can carry. */
    function BitCapacity(): nat
      requires channels == 3 || channels == 4
    {
      var pixels := width * height;
      pixels * DataChannels()
    }

    /** The rank of sample (y, x) among the data samples, rows first. */
    ghost function BitIndex(y: nat, x: nat): nat {
      Cell(y, width * 3, InRow(channels, x))
    }

    ghost predicate IsDataSample(y: nat, x: nat)
      requires Valid()
    {
      y < height && x < px.Length1 && IsDataChannel(channels, x)
    }

    /** Row and column of the `k`-th data sample. */
    ghost function Position(k: nat): (p: (nat, nat))
      requires Valid() && k < BitCapacity()
      ensures IsDataSample(p.0, p.1) && BitIndex(p.0, p.1) == k
    {
      hide Cell, CellRow, CellItem, BitCapacity;
      CapacityByRows();
      CellOfSplit(k, width * 3, height);
      InRowInverse(channels, width, CellItem(k, width * 3));
      (CellRow(k, width * 3), Column(channels, CellItem(k, width * 3)))
    }

    lemma CapacityByRows()
      requires Valid()
      ensures BitCapacity() == Cell(height, width * 3, 0)
    {
      assert width * height * 3 == height * (width * 3);
    }

    lemma InRowBelow(x: nat)
      requires Valid() && x < px.Length1 && IsDataChannel(channels, x)
      ensures InRow(channels, x) < width * 3
    {
    }

    /** Rank and position are inverse: the ranks enumerate the data samples without gap or
        repetition, and there are exactly BitCapacity() of them. */
    lemma PositionOfBitIndex(y: nat, x: nat)
      requires Valid() && IsDataSample(y, x)
      ensures BitIndex(y, x) < BitCapacity()
      ensures Position(BitIndex(y, x)) == (y, x)
    {
      hide Cell, CellRow, CellItem, BitCapacity;
      CapacityByRows();
      InRowBelow(x);
      CellBelow(y, width * 3, InRow(channels, x), height);
      SplitOfCell(y, width * 3, InRow(channels, x));
      ColumnInverse(channels, x);
    }

    /** In the flat sample order the k-th data sample is sample k of an RGB image and
        sample 4 * (k / 3) + k % 3 of an RGBA image. */
    lemma FlatPosition(k: nat)
      requires Valid() && k < BitCapacity()
      ensures Cell(Position(k).0, px.Length1, Position(k).1) == if channels == 4 then 4 * (k / 3) + k % 3 else k
    {
      CapacityByRows();
      CellOfSplit(k, width * 3, height);
      var y, r := CellRow(k, width * 3), CellItem(k, width * 3);
      if channels == 4 {
        assert k == 3 * (y * width) + r by { assert y * (width * 3) == 3 * (y * width); }
        assert k / 3 == y * width + r / 3 && k % 3 == r % 3;
        assert y * (width * 4) == 4 * (y * width);
      }
    }

    /** No other data sample has the rank of (y, x). */
    lemma OnlyRank(y: nat, x: nat)
      requires Valid() && IsDataSample(y, x)
      ensures forall yy: nat, xx: nat :: IsDataSample(yy, xx) && BitIndex(yy, xx) == BitIndex(y, x) ==> yy == y && xx == x
    {
      forall yy: nat, xx: nat | IsDataSample(yy, xx) && BitIndex(yy, xx) == BitIndex(y, x)
        ensures yy == y && xx == x
      {
        PositionOfBitIndex(y, x);
        PositionOfBitIndex(yy, xx);
      }
    }

    lemma CapacityIsLastRank()
      requires Valid()
      ensures BitCapacity() == BitIndex(height, 0)
    {
      CapacityByRows();
    }

    lemma FirstRank()
      requires Valid()
      ensures BitIndex(0, 0) == 0
    {
    }

    lemma NextColumn(y: nat, x: nat)
      requires Valid() && x < px.Length1
      ensures BitIndex(y, x + 1) == BitIndex(y, x) + if IsDataChannel(channels, x) then 1 else 0
    {
    }

    lemma NextRow(y: nat)
      requires Valid()
      ensures BitIndex(y, px.Length1) == BitIndex(y + 1, 0)
    {
    }

    /** The LSB stream: the lowest bits of the data samples in rank order. */
    ghost function Lsb(): (s: seq<bool>)
      requires Valid()
      reads px
      ensures |s| == BitCapacity()
    {
      seq(BitCapacity(), k requires 0 <= k < BitCapacity() reads px =>
        var p := Position(k); Bit(px[p.0, p.1], 0))
    }

    /** The sample that embedding `data` leaves at (y, x) once the first `done` bits are written. */
    ghost function Embedded(data: seq<Byte>, done: nat, y: nat, x: nat, sample: Byte): Byte
      requires Valid() && y < height && x < px.Length1 && done <= 8 * |data|
    {
      if IsDataSample(y, x) && BitIndex(y, x) < done then SetLsb(sample, ToBits(data)[BitIndex(y, x)]) else sample
    }

    lemma RankBelowCapacity(y: nat, x: nat)
      requires Valid() && IsDataSample(y, x)
      ensures BitIndex(y, x) < BitIndex(height, 0)
    {
      PositionOfBitIndex(y, x);
      CapacityByRows();
    }

    /** Sample-wise embedding is overlay of the LSB stream. */
    twostate lemma EmbeddedLsb(data: seq<Byte>)
      requires Valid()
      requires forall y, x :: 0 <= y < height && 0 <= x < px.Length1 ==>
        px[y, x] == Embedded(data, 8 * |data|, y, x, old(px[y, x]))
      ensures Lsb() == Overlay(data, old(Lsb()))
    {
      hide BitCapacity, BitIndex;
      forall k: nat | k < BitCapacity()
        ensures Lsb()[k] == Overlay(data, old(Lsb()))[k]
      {
        var p := Position(k);
        SetLsbMinimal(old(px[p.0, p.1]), k < 8 * |data| && ToBits(data)[k]);
      }
    }

    /** Embedding moves no sample by more than one, changes only lowest bits, and leaves alpha and
        everything behind the last written bit alone. */
    lemma EmbeddingIsMinimal(data: seq<Byte>, y: nat, x: nat, sample: Byte)
      requires Valid() && y < height && x < px.Length1
      ensures var r := Embedded(data, 8 * |data|, y, x, sample);
        && BarelyChanged(sample, r)
        && (channels == 4 && x % 4 == 3 ==> r == sample)
        && (BitIndex(y, x) >= 8 * |data| ==> r == sample)
    {
      hide SetLsb, BitIndex, Bit, ToBits, BarelyChanged;
      SameIsBarelyChanged(sample);
      if IsDataSample(y, x) && BitIndex(y, x) < 8 * |data| {
        SetLsbMinimal(sample, ToBits(data)[BitIndex(y, x)]);
      }
    }

    /** Hides `data` in the lowest bits of the data samples. */
    method EmbedBits(data: seq<Byte>)
      requires Valid()
      modifies px
      ensures forall y, x :: 0 <= y < height && 0 <= x < px.Length1 ==>
        px[y, x] == Embedded(data, 8 * |data|, y, x, old(px[y, x]))
      ensures Lsb() == Overlay(data, old(Lsb()))
    {
      hide Cell, BitIndex, SetLsb, Bit, IsDataChannel;
      var bitIndex := 0;
      var totalBits := |data| * 8;
      var rowLen := width * channels;
      var y := 0;
      FirstRank();
      while y < height && bitIndex < totalBits
        invariant 0 <= y <= height
        invariant bitIndex <= totalBits
        invariant bitIndex == totalBits || bitIndex == BitIndex(y, 0)
        invariant forall yy, xx :: 0 <= yy < height && 0 <= xx < px.Length1 ==>
          px[yy, xx] == Embedded(data, bitIndex, yy, xx, old(px[yy, xx]))
      {
        var x := 0;
        while x < rowLen && bitIndex < totalBits
          invariant 0 <= x <= rowLen
          invariant bitIndex == BitIndex(y, x) <= totalBits
          invariant forall yy, xx :: 0 <= yy < height && 0 <= xx < px.Length1 ==>
            px[yy, xx] == Embedded(data, bitIndex, yy, xx, old(px[yy, xx]))
        {
          NextColumn(y, x);
          if IsDataChannel(channels, x) {
            var bytePos := bitIndex / 8;
            var bit := Bit(data[bytePos], bitIndex % 8);
            OnlyRank(y, x);
            px[y, x] := SetLsb(px[y, x], bit);
            bitIndex := bitIndex + 1;
          }
          x := x + 1;
        }
        NextRow(y);
        y := y + 1;
      }
      forall yy, xx | 0 <= yy < height && 0 <= xx < px.Length1
        ensures px[yy, xx] == Embedded(data, 8 * |data|, yy, xx, old(px[yy, xx]))
      {
        if IsDataSample(yy, xx) {
          RankBelowCapacity(yy, xx);
        }
      }
      EmbeddedLsb(data);
    }

    /** Gathers the lowest bits of the data samples into `data`, replacing its contents. */
    method ExtractBits(data: array<Byte>)
      requires Valid()
      modifies data
      ensures data[..] == Extraction(Lsb(), data.Length)
    {
      hide Cell, BitIndex, BitCapacity, Bit, IsDataChannel, PutBit, Lowest, Gathered, InRow;
      forall i | 0 <= i < data.Length {
        data[i] := 0;
      }
      ghost var stream := Lsb();
      var bitIndex := 0;
      var totalBits := data.Length * 8;
      var rowLen := width * channels;
      var y := 0;
      FirstRank();
      NothingGathered(data[..], stream);
      while y < height && bitIndex < totalBits
        invariant 0 <= y <= height
        invariant bitIndex <= totalBits && bitIndex <= |stream|
        invariant bitIndex == totalBits || bitIndex == BitIndex(y, 0)
        invariant Lsb() == stream && Gathered(data[..], stream[..bitIndex])
      {
        var x := 0;
        while x < rowLen && bitIndex < totalBits
          invariant 0 <= x <= rowLen
          invariant bitIndex == BitIndex(y, x) <= totalBits
          invariant bitIndex <= |stream|
          invariant Lsb() == stream && Gathered(data[..], stream[..bitIndex])
        {
          NextColumn(y, x);
          if IsDataChannel(channels, x) {
            PositionOfBitIndex(y, x);
            LowBit(px[y, x]);
            var bit := Lowest(px[y, x]);
            GatherBit(data[..], stream[..bitIndex], bit);
            ghost var next := data[..][bitIndex / 8 := PutBit(data[bitIndex / 8], bitIndex % 8, bit)];
            data[bitIndex / 8] := PutBit(data[bitIndex / 8], bitIndex % 8, bit);
            assert data[..] == next;
            assert stream[..bitIndex + 1] == stream[..bitIndex] + [bit == 1];
            bitIndex := bitIndex + 1;
          }
          x := x + 1;
        }
        NextRow(y);
        y := y + 1;
      }
      CapacityIsLastRank();
      GatheredAll(data[..], stream, bitIndex);
    }
  }
}
