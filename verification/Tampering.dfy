/** What happens to a hidden container when some consecutive bits of its carrier change. */
module Tampering {
  import opened Bits
  import opened Crc32
  import opened CrcTheory
  import opened Container

  /** A stream with the bits from position `i` replaced. */
  function Splice(stream: seq<bool>, i: nat, w: seq<bool>): (r: seq<bool>)
    requires i + |w| <= |stream|
    ensures |r| == |stream|
  {
    stream[..i] + w + stream[i + |w|..]
  }

  /** The window of bits [i, i + n) lies inside magic and kind, inside the name, inside the payload,
      or inside the checksum of a container. */
  predicate InsideOneField(i: nat, n: nat, nameLen: nat, payloadLen: nat) {
    || i + n <= 8 * 5
    || (8 * 7 <= i && i + n <= 8 * (7 + nameLen))
    || (8 * (11 + nameLen) <= i && i + n <= 8 * (11 + nameLen + payloadLen))
    || (8 * (11 + nameLen + payloadLen) <= i && i + n <= 8 * (HEADER_MIN_LEN + nameLen + payloadLen))
  }

  /** Bytes outside the window are as they were. */
  lemma SpliceKeeps(stream: seq<bool>, i: nat, w: seq<bool>, from: nat, to: nat)
    requires i + |w| <= |stream| && from <= to <= |stream| / 8
    requires 8 * to <= i || i + |w| <= 8 * from
    ensures ToBytes(Splice(stream, i, w))[from..to] == ToBytes(stream)[from..to]
  {
    var spliced := Splice(stream, i, w);
    forall j | from <= j < to
      ensures ToBytes(spliced)[j] == ToBytes(stream)[j]
    {
      assert spliced[8 * j..8 * j + 8] == stream[8 * j..8 * j + 8];
    }
  }

  lemma TamperedBody(stream: seq<bool>, end: nat, i: nat, w: seq<bool>)
    requires i + |w| <= 8 * end && end <= |stream| / 8 && |w| <= 32 && w != stream[i..i + |w|]
    ensures Crc(ToBytes(Splice(stream, i, w))[..end]) != Crc(ToBytes(stream)[..end])
  {
    hide Crc, ToBytes, ToBits;
    var before, after := stream[..i], stream[i + |w|..8 * end];
    var spliced := Splice(stream, i, w);
    ReadBytesWereWritten(stream, end);
    ReadBytesWereWritten(spliced, end);
    assert stream[..8 * end] == before + stream[i..i + |w|] + after;
    assert spliced[..8 * end] == before + w + after;
    BurstDetected(ToBytes(spliced)[..end], ToBytes(stream)[..end], before, w, stream[i..i + |w|], after);
  }

  lemma WindowOf(stream: seq<bool>, i: nat, w: seq<bool>, m: nat)
    requires i + |w| <= m <= |stream|
    ensures Splice(stream, i, w)[..m] == stream[..m] ==> w == stream[i..i + |w|]
  {
    var spliced := Splice(stream, i, w);
    if spliced[..m] == stream[..m] {
      forall t | 0 <= t < |w|
        ensures w[t] == stream[i + t]
      {
        assert spliced[..m][i + t] == stream[..m][i + t];
      }
    }
  }

  lemma TamperedChecksum(stream: seq<bool>, end: nat, i: nat, w: seq<bool>)
    requires 8 * end <= i && i + |w| <= 8 * (end + 4) && end + 4 <= |stream| / 8 && w != stream[i..i + |w|]
    ensures ReadBe32(ToBytes(Splice(stream, i, w))[end..end + 4]) != ReadBe32(ToBytes(stream)[end..end + 4])
  {
    hide ReadBe32, WriteBe32, ToBytes, ToBits;
    var spliced := Splice(stream, i, w);
    var c, c' := ToBytes(stream), ToBytes(spliced);
    WindowOf(stream, i, w, 8 * (end + 4));
    if ReadBe32(c'[end..end + 4]) == ReadBe32(c[end..end + 4]) {
      Be32Inverse(c'[end..end + 4]);
      Be32Inverse(c[end..end + 4]);
      SpliceKeeps(stream, i, w, 0, end);
      assert c'[..end + 4] == c'[0..end] + c'[end..end + 4] && c[..end + 4] == c[0..end] + c[end..end + 4];
      ReadBytesWereWritten(stream, end + 4);
      ReadBytesWereWritten(spliced, end + 4);
    }
  }

  /** Changing up to 32 consecutive bits of the magic and kind, of the name, of the payload or of
      the checksum of a hidden container makes decoding fail, whatever the change is: with a
      checksum error unless the change reaches magic and kind. */
  lemma TamperingIsDetected(stream: seq<bool>, k: Kind, name: seq<Byte>, payload: seq<Byte>, i: nat, w: seq<bool>)
    requires |name| < UINT16 && |payload| < UINT32 && Format(k, name, payload) <= ToBytes(stream)
    requires |w| <= 32 && InsideOneField(i, |w|, |name|, |payload|)
    requires w != stream[i..i + |w|]
    ensures Parse(ToBytes(Splice(stream, i, w))).Failed?
    ensures i >= 8 * 5 ==> Parse(ToBytes(Splice(stream, i, w))) == Failed(ErrCrc)
  {
    hide Checksum, Body, Format, Splice, ToBytes, ReadBe16, ReadBe32, Crc;
    var c, c' := ToBytes(stream), ToBytes(Splice(stream, i, w));
    var f := Format(k, name, payload);
    assert c == f + c[|f|..];
    FormatFields(k, name, payload, c[|f|..]);
    var n, end := |name|, 11 + |name| + |payload|;
    SpliceKeeps(stream, i, w, 5, 7);
    SpliceKeeps(stream, i, w, 7 + n, 11 + n);
    if i >= 8 * 5 {
      SpliceKeeps(stream, i, w, 0, 5);
      assert c'[..4] == c'[0..5][..4] && c'[4] == c'[0..5][4];
      assert c[..4] == c[0..5][..4] && c[4] == c[0..5][4];
    }
    if i < 8 * end {
      TamperedBody(stream, end, i, w);
      ChecksumInjective(c[..end], c'[..end]);
      SpliceKeeps(stream, i, w, end, end + 4);
    } else {
      TamperedChecksum(stream, end, i, w);
      SpliceKeeps(stream, i, w, 0, end);
      assert c'[..end] == c'[0..end] && c[..end] == c[0..end];
    }
  }

  lemma ChecksumInjective(a: seq<Byte>, b: seq<Byte>)
    requires Crc(a) != Crc(b)
    ensures Checksum(a) != Checksum(b)
  {
    hide Crc;
    WordOfNat(Crc(a));
    WordOfNat(Crc(b));
  }

  // ----- Tampering across the end of the payload

  /** Whether a carrier whose header is in order decodes is a matter of its checksum alone. */
  lemma ChecksumDecides(c: seq<Byte>, k: Kind, n: nat, m: nat)
    requires n < UINT16 && HEADER_MIN_LEN + n + m <= |c|
    requires c[..4] == MAGIC && c[4] == KindByte(k) && NameLength(c) == n && PayloadLength(c) == m
    ensures Parse(c).Extracted? <==> BeWord(c[11 + n + m..15 + n + m]) == Crc(c[..11 + n + m])
    ensures Parse(c).Extracted? ==> Parse(c).kind == k && Parse(c).data == c[11 + n..11 + n + m]
  {
    hide Crc, ReadBe32, BeWord, NameLength, PayloadLength;
    var end := 11 + n + m;
    BeWordValue(c[end..end + 4]);
    WordOfNat(BeWord(c[end..end + 4]));
    WordOfNat(Crc(c[..end]));
  }

  /** A window that begins in the payload or behind it leaves everything before the payload alone. */
  lemma HeaderKept(stream: seq<bool>, k: Kind, name: seq<Byte>, payload: seq<Byte>, i: nat, w: seq<bool>)
    requires |name| < UINT16 && |payload| < UINT32 && Format(k, name, payload) <= ToBytes(stream)
    requires 8 * (11 + |name|) <= i && i + |w| <= |stream|
    ensures var c := ToBytes(Splice(stream, i, w));
      && HEADER_MIN_LEN + |name| + |payload| <= |c|
      && c[..4] == MAGIC && c[4] == KindByte(k) && NameLength(c) == |name| && PayloadLength(c) == |payload|
  {
    hide Checksum, Body, Format, Splice, ToBytes, ReadBe16, ReadBe32;
    var c, c' := ToBytes(stream), ToBytes(Splice(stream, i, w));
    var f, n := Format(k, name, payload), |name|;
    assert c == f + c[|f|..];
    FormatFields(k, name, payload, c[|f|..]);
    SpliceKeeps(stream, i, w, 0, 11 + n);
    assert c[..4] == c[0..11 + n][..4] && c'[..4] == c'[0..11 + n][..4];
    assert c[4] == c[0..11 + n][4] && c'[4] == c'[0..11 + n][4];
    assert c[5..7] == c[0..11 + n][5..7] && c'[5..7] == c'[0..11 + n][5..7];
    assert c[7 + n..11 + n] == c[0..11 + n][7 + n..11 + n] && c'[7 + n..11 + n] == c'[0..11 + n][7 + n..11 + n];
  }

  /** The stored checksum of a container with this name and payload, as a word. */
  function StoredWord(c: seq<Byte>, n: nat, m: nat): Word
    requires HEADER_MIN_LEN + n + m <= |c|
  {
    BeWord(c[11 + n + m..15 + n + m])
  }

  lemma HiddenIsConsistent(c: seq<Byte>, k: Kind, name: seq<Byte>, payload: seq<Byte>)
    requires |name| < UINT16 && |payload| < UINT32 && Format(k, name, payload) <= c
    ensures c[..4] == MAGIC && c[4] == KindByte(k) && NameLength(c) == |name| && PayloadLength(c) == |payload|
    ensures StoredWord(c, |name|, |payload|) == Crc(c[..11 + |name| + |payload|])
  {
    hide Checksum, Body, Format, ReadBe32, Crc, BeWord;
    var f := Format(k, name, payload);
    assert c == f + c[|f|..];
    FormatFields(k, name, payload, c[|f|..]);
    ParseOfPrefix(c, k, name, payload);
    hide Parse;
    ChecksumDecides(c, k, |name|, |payload|);
  }

  /** Changing the last `p` bits of the payload, 32 at most, and any part of the checksum behind
      them: decoding succeeds if and only if the stored checksum changes by exactly what the
      register makes of the change of the payload. */
  lemma TamperingAcrossTheEnd(stream: seq<bool>, k: Kind, name: seq<Byte>, payload: seq<Byte>, p: nat, w: seq<bool>)
    requires |name| < UINT16 && |payload| < UINT32 && Format(k, name, payload) <= ToBytes(stream)
    requires p <= 32 && p <= 8 * |payload| && p <= |w| <= p + 32
    ensures var i := 8 * (11 + |name| + |payload|) - p; var c, c' := ToBytes(stream), ToBytes(Splice(stream, i, w));
      Parse(c').Extracted? <==>
        Xor(StoredWord(c, |name|, |payload|), StoredWord(c', |name|, |payload|))
          == BitSteps(Xor(WordOf(stream[i..i + p]), WordOf(w[..p])), p)
    ensures var i := 8 * (11 + |name| + |payload|) - p; var c' := ToBytes(Splice(stream, i, w));
      Parse(c').Extracted? ==> Parse(c').data == c'[11 + |name|..11 + |name| + |payload|]
  {
    hide Checksum, Body, Format, Splice, ToBytes, ToBits, Parse, Crc, Xor, BeWord, NameLength, PayloadLength;
    var end := 11 + |name| + |payload|;
    var i := 8 * end - p;
    var spliced := Splice(stream, i, w);
    var c, c' := ToBytes(stream), ToBytes(spliced);
    HiddenIsConsistent(c, k, name, payload);
    HeaderKept(stream, k, name, payload, i, w);
    ChecksumDecides(c', k, |name|, |payload|);
    ReadBytesWereWritten(stream, end);
    ReadBytesWereWritten(spliced, end);
    SplicedFront(stream, i, w, p);
    ChangeOfLastBits(c[..end], c'[..end], stream[..i], stream[i..i + p], w[..p]);
    SameChange(Crc(c[..end]), StoredWord(c', |name|, |payload|), Crc(c'[..end]));
  }

  lemma SplicedFront(stream: seq<bool>, i: nat, w: seq<bool>, p: nat)
    requires p <= |w| && i + |w| <= |stream|
    ensures stream[..i + p] == stream[..i] + stream[i..i + p]
    ensures Splice(stream, i, w)[..i + p] == stream[..i] + w[..p]
  {
  }

  lemma SameChange(a: Word, b: Word, c: Word)
    ensures Xor(a, b) == Xor(a, c) <==> b == c
  {
  }

  // The change of the register that the last bit of the data makes, as stored.
  const LAST_BIT: seq<Byte> := [0xED, 0xB8, 0x83, 0x20]

  function XorByte(a: Byte, b: Byte): Byte {
    a ^ b
  }

  lemma XorByteBit(a: Byte, b: Byte, i: nat)
    requires i < 8
    ensures Bit(XorByte(a, b), i) == (Bit(a, i) != Bit(b, i))
  {
    if i < 4 {
      LowBitsXor(a, b);
    } else {
      HighBitsXor(a, b);
    }
    hide XorByte, Bit;
    assert i in {0, 1, 2, 3, 4, 5, 6, 7};
  }

  lemma LowBitsXor(a: Byte, b: Byte)
    ensures Bit(XorByte(a, b), 0) == (Bit(a, 0) != Bit(b, 0)) && Bit(XorByte(a, b), 1) == (Bit(a, 1) != Bit(b, 1))
    ensures Bit(XorByte(a, b), 2) == (Bit(a, 2) != Bit(b, 2)) && Bit(XorByte(a, b), 3) == (Bit(a, 3) != Bit(b, 3))
  {
  }

  lemma HighBitsXor(a: Byte, b: Byte)
    ensures Bit(XorByte(a, b), 4) == (Bit(a, 4) != Bit(b, 4)) && Bit(XorByte(a, b), 5) == (Bit(a, 5) != Bit(b, 5))
    ensures Bit(XorByte(a, b), 6) == (Bit(a, 6) != Bit(b, 6)) && Bit(XorByte(a, b), 7) == (Bit(a, 7) != Bit(b, 7))
  {
  }

  lemma AppendXor(v: Word, b: Byte, v': Word, b': Byte)
    ensures AppendByte(Xor(v, v'), XorByte(b, b')) == Xor(AppendByte(v, b), AppendByte(v', b'))
  {
  }

  lemma LastBitWord()
    ensures BeWord(LAST_BIT) == 0xEDB88320 && Xor(0, 0) == 0
  {
  }

  lemma BeWordXor(s: seq<Byte>, t: seq<Byte>)
    requires |s| == |t| == 4 && forall j :: 0 <= j < 4 ==> t[j] == XorByte(s[j], LAST_BIT[j])
    ensures BeWord(t) == Xor(BeWord(s), 0xEDB88320)
  {
    LastBitWord();
    hide Xor, XorByte, AppendByte;
    var v, v' := AppendByte(0, s[0]), AppendByte(0, LAST_BIT[0]);
    AppendXor(0, s[0], 0, LAST_BIT[0]);
    AppendXor(v, s[1], v', LAST_BIT[1]);
    v, v' := AppendByte(v, s[1]), AppendByte(v', LAST_BIT[1]);
    AppendXor(v, s[2], v', LAST_BIT[2]);
    v, v' := AppendByte(v, s[2]), AppendByte(v', LAST_BIT[2]);
    AppendXor(v, s[3], v', LAST_BIT[3]);
  }

  lemma LastBitChange(bit: bool)
    ensures BitSteps(Xor(WordOf([bit]), WordOf([!bit])), 1) == 0xEDB88320
  {
    assert WordOf([bit][1..]) == 0 && WordOf([!bit][1..]) == 0;
  }

  /** The bits of LAST_BIT; the last one is zero, so that 31 of them make the change. */
  function LastBitMask(t: nat): bool
    requires t < 32
  {
    Bit(LAST_BIT[t / 8], t % 8)
  }

  /** 32 bits that flip the last payload bit and the stored checksum accordingly. */
  function UndetectedChange(stream: seq<bool>, end: nat): (w: seq<bool>)
    requires 0 < end && 8 * end + 31 <= |stream|
    ensures |w| == 32
  {
    [!stream[8 * end - 1]] + seq(31, t requires 0 <= t < 31 => stream[8 * end + t] != LastBitMask(t))
  }

  lemma ChangedBit(stream: seq<bool>, end: nat, t: nat)
    requires 0 < end && 8 * end + 32 <= |stream| && t < 32
    ensures Splice(stream, 8 * end - 1, UndetectedChange(stream, end))[8 * end + t]
      == (stream[8 * end + t] != LastBitMask(t))
  {
  }

  lemma ChangedByte(stream: seq<bool>, end: nat, j: nat)
    requires 0 < end && end + 4 <= |stream| / 8 && j < 4
    ensures ToBytes(Splice(stream, 8 * end - 1, UndetectedChange(stream, end)))[end + j]
      == XorByte(ToBytes(stream)[end + j], LAST_BIT[j])
  {
    hide Bit, Pack, ToBytes, XorByte, Splice, UndetectedChange;
    var spliced := Splice(stream, 8 * end - 1, UndetectedChange(stream, end));
    var was, now := XorByte(ToBytes(stream)[end + j], LAST_BIT[j]), ToBytes(spliced)[end + j];
    forall i | 0 <= i < 8
      ensures Bit(now, i) == Bit(was, i)
    {
      ByteBit(spliced, end + j, i);
      ByteBit(stream, end + j, i);
      BitPosition(j, i);
      ChangedBit(stream, end, 8 * j + i);
      XorByteBit(ToBytes(stream)[end + j], LAST_BIT[j], i);
    }
    SameBits(now, was);
  }

  /** So not every burst is detected: for every hidden container with a payload, some change within
      32 consecutive bits that straddles payload and checksum decodes, to another payload. */
  lemma SomeTamperingPasses(stream: seq<bool>, k: Kind, name: seq<Byte>, payload: seq<Byte>, end: nat)
    requires |name| < UINT16 && 0 < |payload| < UINT32 && Format(k, name, payload) <= ToBytes(stream)
    requires end == 11 + |name| + |payload| && end + 4 <= |stream| / 8
    ensures var r := Parse(ToBytes(Splice(stream, 8 * end - 1, UndetectedChange(stream, end))));
      r.Extracted? && r.data != payload
  {
    hide Parse, Splice, ToBytes, Format, Xor, BitSteps, WordOf, BeWord, Crc;
    var i, w := 8 * end - 1, UndetectedChange(stream, end);
    var c, c' := ToBytes(stream), ToBytes(Splice(stream, i, w));
    forall j | 0 <= j < 4
      ensures c'[end..end + 4][j] == XorByte(c[end..end + 4][j], LAST_BIT[j])
    {
      ChangedByte(stream, end, j);
    }
    BeWordXor(c[end..end + 4], c'[end..end + 4]);
    XorTwice(BeWord(c[end..end + 4]), 0xEDB88320);
    LastBitChange(stream[i]);
    assert stream[i..i + 1] == [stream[i]] && w[..1] == [!stream[i]];
    TamperingAcrossTheEnd(stream, k, name, payload, 1, w);
    LastByteDiffers(stream, k, name, payload, end);
  }

  lemma XorTwice(a: Word, b: Word)
    ensures Xor(a, Xor(a, b)) == b
  {
  }

  lemma LastByteDiffers(stream: seq<bool>, k: Kind, name: seq<Byte>, payload: seq<Byte>, end: nat)
    requires |name| < UINT16 && 0 < |payload| < UINT32 && Format(k, name, payload) <= ToBytes(stream)
    requires end == 11 + |name| + |payload| && end + 4 <= |stream| / 8
    ensures ToBytes(Splice(stream, 8 * end - 1, UndetectedChange(stream, end)))[11 + |name|..end] != payload
  {
    hide Format, ToBytes, Bit, Pack, Checksum, Body, ReadBe32;
    var c, c' := ToBytes(stream), ToBytes(Splice(stream, 8 * end - 1, UndetectedChange(stream, end)));
    var f := Format(k, name, payload);
    assert c == f + c[|f|..];
    FormatFields(k, name, payload, c[|f|..]);
    ByteBit(stream, end - 1, 7);
    ByteBit(Splice(stream, 8 * end - 1, UndetectedChange(stream, end)), end - 1, 7);
    assert payload[|payload| - 1] == c[end - 1];
    assert c'[11 + |name|..end][|payload| - 1] == c'[end - 1];
  }
}
