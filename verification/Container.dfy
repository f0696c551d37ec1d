/** The container format hidden in a carrier: its printer, its parser, and how they relate. */
module Container {
  import opened Bits
  import opened Crc32
  import opened Util

  const MAGIC: seq<Byte> := [0x53, 0x54, 0x47, 0x31] // "STG1"
  const HEADER_MIN_LEN := 15
  const MAX_NAME := 255
  const UINT16 := 0x1_0000
  const UINT32 := 0x1_0000_0000

  datatype Kind = Text | File

  datatype Status = Ok | ErrCapacity | ErrMagic | ErrCrc

  datatype Decoded =
    | Extracted(kind: Kind, filename: seq<Byte>, data: seq<Byte>)
    | Failed(status: Status)

  // ----- Big-endian fields

  function ToByte(n: nat): Byte
    requires n < 0x100
  {
    n as Byte
  }

  function Value(b: Byte): (n: nat)
    ensures n < 0x100
  {
    b as nat
  }

  lemma ValueByte(b: Byte)
    ensures ToByte(Value(b)) == b
  {
  }

  lemma NextByte(b: Byte)
    requires Value(b) < 0xFF
    ensures Value(b + 1) == Value(b) + 1
  {
  }

  lemma ZeroByte()
    ensures Value(0) == 0
  {
  }

  lemma {:induction false} ByteOfValue(n: nat) returns (b: Byte)
    requires n < 0x100
    ensures Value(b) == n
    decreases n
  {
    hide Value;
    if n == 0 {
      ZeroByte();
      b := 0;
    } else {
      b := ByteOfValue(n - 1);
      NextByte(b);
      b := b + 1;
    }
  }

  lemma ByteValue(n: nat)
    requires n < 0x100
    ensures Value(ToByte(n)) == n
  {
    hide Value, ToByte;
    var b := ByteOfValue(n);
    ValueByte(b);
  }

  function WriteBe16(v: nat): (s: seq<Byte>)
    requires v < UINT16
    ensures |s| == 2
  {
    [ToByte(v / 0x100), ToByte(v % 0x100)]
  }

  function ReadBe16(s: seq<Byte>): (v: nat)
    requires |s| == 2
    ensures v < UINT16
  {
    Value(s[0]) * 0x100 + Value(s[1])
  }

  function WriteBe32(v: nat): (s: seq<Byte>)
    requires v < UINT32
    ensures |s| == 4
  {
    [ToByte(v / 0x100_0000), ToByte(v / 0x1_0000 % 0x100), ToByte(v / 0x100 % 0x100), ToByte(v % 0x100)]
  }

  function ReadBe32(s: seq<Byte>): (v: nat)
    requires |s| == 4
    ensures v < UINT32
  {
    Value(s[0]) * 0x100_0000 + Value(s[1]) * 0x1_0000 + Value(s[2]) * 0x100 + Value(s[3])
  }

  function AppendByte(a: Word, b: Byte): Word {
    (a << 8) | (b as Word)
  }

  lemma ShiftedValue(a: Word, b: Byte)
    requires a >> 24 == 0
    ensures ((a << 8) | (b as Word)) as nat == 0x100 * (a as nat) + Value(b)
  {
  }

  lemma AppendedValue(a: Word, b: Byte)
    requires a >> 24 == 0
    ensures AppendByte(a, b) as nat == 0x100 * (a as nat) + Value(b)
  {
    hide Value;
    ShiftedValue(a, b);
  }

  /** Four bytes as a word, most significant first. */
  function BeWord(s: seq<Byte>): Word
    requires |s| == 4
  {
    AppendByte(AppendByte(AppendByte(AppendByte(0, s[0]), s[1]), s[2]), s[3])
  }

  lemma AppendedFits(b: Byte, c: Byte, d: Byte)
    ensures AppendByte(0, b) >> 24 == 0 && AppendByte(AppendByte(0, b), c) >> 24 == 0
    ensures AppendByte(AppendByte(AppendByte(0, b), c), d) >> 24 == 0
  {
  }

  lemma BeWordValue(s: seq<Byte>)
    requires |s| == 4
    ensures BeWord(s) as nat == ReadBe32(s)
  {
    hide AppendByte, Value;
    AppendedFits(s[0], s[1], s[2]);
    var w1 := AppendByte(0, s[0]);
    var w2 := AppendByte(w1, s[1]);
    var w3 := AppendByte(w2, s[2]);
    AppendedValue(0, s[0]);
    AppendedValue(w1, s[1]);
    AppendedValue(w2, s[2]);
    AppendedValue(w3, s[3]);
  }

  lemma Be16(v: nat)
    requires v < UINT16
    ensures ReadBe16(WriteBe16(v)) == v
  {
    hide ToByte, Value;
    ByteValue(v / 0x100);
    ByteValue(v % 0x100);
  }

  lemma Be16Inverse(s: seq<Byte>)
    requires |s| == 2
    ensures WriteBe16(ReadBe16(s)) == s
  {
    hide ToByte, Value;
    ValueByte(s[0]);
    ValueByte(s[1]);
  }

  lemma Digits(v: nat, a: nat, b: nat, c: nat, d: nat)
    requires v == a * 0x100_0000 + b * 0x1_0000 + c * 0x100 + d
    requires b < 0x100 && c < 0x100 && d < 0x100
    ensures v / 0x100_0000 == a && v / 0x1_0000 % 0x100 == b && v / 0x100 % 0x100 == c && v % 0x100 == d
  {
    assert v / 0x100 == a * 0x1_0000 + b * 0x100 + c;
    assert v / 0x1_0000 == a * 0x100 + b;
  }

  lemma Be32(v: nat)
    requires v < UINT32
    ensures ReadBe32(WriteBe32(v)) == v
  {
    hide ToByte, Value;
    var d, v1 := v % 0x100, v / 0x100;
    var c, v2 := v1 % 0x100, v1 / 0x100;
    var b, a := v2 % 0x100, v2 / 0x100;
    Digits(v, a, b, c, d);
    ByteValue(a);
    ByteValue(b);
    ByteValue(c);
    ByteValue(d);
  }

  lemma Be32Inverse(s: seq<Byte>)
    requires |s| == 4
    ensures WriteBe32(ReadBe32(s)) == s
  {
    hide ToByte, Value;
    Digits(ReadBe32(s), Value(s[0]), Value(s[1]), Value(s[2]), Value(s[3]));
    ValueByte(s[0]);
    ValueByte(s[1]);
    ValueByte(s[2]);
    ValueByte(s[3]);
  }

  // ----- The format

  function KindByte(k: Kind): Byte {
    match k
    case Text => 0
    case File => 1
  }

  function Checksum(data: seq<Byte>): (v: nat)
    ensures v < UINT32
  {
    Crc(data) as nat
  }

  /** Everything the checksum covers. */
  function Body(k: Kind, name: seq<Byte>, lengthField: nat, payload: seq<Byte>): (s: seq<Byte>)
    requires |name| < UINT16 && lengthField < UINT32
    ensures |s| == 11 + |name| + |payload|
  {
    MAGIC + [KindByte(k)] + WriteBe16(|name|) + name + WriteBe32(lengthField) + payload
  }

  function Seal(body: seq<Byte>): (s: seq<Byte>)
    ensures |s| == |body| + 4
  {
    body + WriteBe32(Checksum(body))
  }

  /** A well-formed container: all lengths fit their fields. */
  function Format(k: Kind, name: seq<Byte>, payload: seq<Byte>): (s: seq<Byte>)
    requires |name| < UINT16 && |payload| < UINT32
    ensures |s| == HEADER_MIN_LEN + |name| + |payload|
  {
    Seal(Body(k, name, |payload|, payload))
  }

  /** The name the encoder stores: only files have one, cut to 255 bytes. */
  function StoredName(k: Kind, filename: seq<Byte>): (s: seq<Byte>)
    ensures |s| <= MAX_NAME
  {
    if k == File then filename[..Min(|filename|, MAX_NAME)] else []
  }

  /** What the encoder builds: the name is cut, and the length field wraps at 2^32. */
  function Built(k: Kind, filename: seq<Byte>, payload: seq<Byte>): (s: seq<Byte>)
    ensures |s| == HEADER_MIN_LEN + |StoredName(k, filename)| + |payload|
  {
    Seal(Body(k, StoredName(k, filename), |payload| % UINT32, payload))
  }

  // ----- The decoder on the bytes of a carrier

  function NameLength(c: seq<Byte>): (n: nat)
    requires |c| >= 7
    ensures n < UINT16
  {
    ReadBe16(c[5..7])
  }

  function PayloadLength(c: seq<Byte>): (n: nat)
    requires |c| >= 7 && NameLength(c) + 11 <= |c|
    ensures n < UINT32
  {
    ReadBe32(c[7 + NameLength(c)..11 + NameLength(c)])
  }

  /** What decoding a carrier that holds the bytes `c` returns. */
  function Parse(c: seq<Byte>): (r: Decoded)
    ensures r.Extracted? ==>
      |c| >= HEADER_MIN_LEN && NameLength(c) + |r.data| + HEADER_MIN_LEN <= |c| && |r.data| < UINT32
  {
    if |c| < HEADER_MIN_LEN || c[..4] != MAGIC || (c[4] != KindByte(Text) && c[4] != KindByte(File)) then Failed(ErrMagic)
    else
      var n := NameLength(c);
      if 11 + n > |c| || HEADER_MIN_LEN + n + PayloadLength(c) > |c| then Failed(ErrMagic)
      else
        var end := 11 + n + PayloadLength(c);
        if ReadBe32(c[end..end + 4]) != Checksum(c[..end]) then Failed(ErrCrc)
        else Extracted(if c[4] == KindByte(Text) then Text else File, c[7..7 + Min(n, MAX_NAME)], c[11 + n..end])
  }

  /** The fields of a container up to its checksum, at their offsets. */
  lemma BodyFields(k: Kind, name: seq<Byte>, payload: seq<Byte>, rest: seq<Byte>)
    requires |name| < UINT16 && |payload| < UINT32
    ensures var c := Body(k, name, |payload|, payload) + rest; var end := 11 + |name| + |payload|;
      && c[..4] == MAGIC && c[4] == KindByte(k) && NameLength(c) == |name|
      && c[7..7 + |name|] == name && PayloadLength(c) == |payload|
      && c[11 + |name|..end] == payload && c[..end] == Body(k, name, |payload|, payload)
      && c[5..7] == WriteBe16(|name|) && c[7 + |name|..11 + |name|] == WriteBe32(|payload|)
  {
    hide WriteBe16, WriteBe32, ReadBe16, ReadBe32;
    var c := Body(k, name, |payload|, payload) + rest;
    assert c[5..7] == WriteBe16(|name|);
    Be16(|name|);
    assert c[7 + |name|..11 + |name|] == WriteBe32(|payload|);
    Be32(|payload|);
  }

  /** The fields of a format, at their offsets. */
  lemma FormatFields(k: Kind, name: seq<Byte>, payload: seq<Byte>, rest: seq<Byte>)
    requires |name| < UINT16 && |payload| < UINT32
    ensures var c := Format(k, name, payload) + rest; var end := 11 + |name| + |payload|;
      && c[..4] == MAGIC && c[4] == KindByte(k) && NameLength(c) == |name|
      && c[7..7 + |name|] == name && PayloadLength(c) == |payload|
      && c[11 + |name|..end] == payload && c[..end] == Body(k, name, |payload|, payload)
      && ReadBe32(c[end..end + 4]) == Checksum(c[..end])
  {
    hide Checksum, WriteBe32, ReadBe32, Body, NameLength, PayloadLength;
    var body := Body(k, name, |payload|, payload);
    var c := Format(k, name, payload) + rest;
    var end := 11 + |name| + |payload|;
    BodyFields(k, name, payload, WriteBe32(Checksum(body)) + rest);
    assert c == body + (WriteBe32(Checksum(body)) + rest);
    assert c[end..end + 4] == WriteBe32(Checksum(body));
    Be32(Checksum(body));
  }

  /** Four bytes as the digits of a number in base 256, most significant first. */
  predicate BigEndian(s: seq<Byte>, v: nat) {
    && |s| == 4 && Value(s[0]) == v / 0x100_0000 && Value(s[1]) == v / 0x1_0000 % 0x100
    && Value(s[2]) == v / 0x100 % 0x100 && Value(s[3]) == v % 0x100
  }

  /** The bytes of a container as numbers. */
  lemma FormatBytes(k: Kind, name: seq<Byte>, payload: seq<Byte>)
    requires |name| < UINT16 && |payload| < UINT32
    ensures var f := Format(k, name, payload); var n := |name|; var end := 11 + n + |payload|;
      && f[..4] == [0x53, 0x54, 0x47, 0x31]
      && f[4] == (if k == Text then 0x00 else 0x01)
      && Value(f[5]) == n / 0x100 && Value(f[6]) == n % 0x100
      && f[7..7 + n] == name
      && BigEndian(f[7 + n..11 + n], |payload|)
      && f[11 + n..end] == payload
      && BigEndian(f[end..end + 4], Crc(f[..end]) as nat)
      && |f| == end + 4
  {
    hide Crc, Value, ToByte, Body, WriteBe16, WriteBe32, NameLength, PayloadLength, BigEndian;
    var f, n := Format(k, name, payload), |name|;
    var end := 11 + n + |payload|;
    var body := Body(k, name, |payload|, payload);
    var stored := WriteBe32(Checksum(body));
    BodyFields(k, name, payload, stored);
    assert f == body + stored && f[end..end + 4] == stored;
    assert f[5..7][0] == f[5] && f[5..7][1] == f[6];
    NameDigits(n);
    WrittenIsBigEndian(|payload|);
    WrittenIsBigEndian(Checksum(body));
  }

  lemma NameDigits(n: nat)
    requires n < UINT16
    ensures Value(WriteBe16(n)[0]) == n / 0x100 && Value(WriteBe16(n)[1]) == n % 0x100
  {
    hide Value, ToByte;
    ByteValue(n / 0x100);
    ByteValue(n % 0x100);
  }

  lemma WrittenIsBigEndian(v: nat)
    requires v < UINT32
    ensures BigEndian(WriteBe32(v), v)
  {
    hide ToByte, Value;
    ByteValue(v / 0x100_0000);
    ByteValue(v / 0x1_0000 % 0x100);
    ByteValue(v / 0x100 % 0x100);
    ByteValue(v % 0x100);
  }

  /** Decoding what was formatted returns it, whatever follows in the carrier. */
  lemma ParseOfFormat(k: Kind, name: seq<Byte>, payload: seq<Byte>, rest: seq<Byte>)
    requires |name| < UINT16 && |payload| < UINT32
    ensures Parse(Format(k, name, payload) + rest) == Extracted(k, name[..Min(|name|, MAX_NAME)], payload)
  {
    hide Checksum, ReadBe16, ReadBe32, NameLength, PayloadLength, Format, Body;
    FormatFields(k, name, payload, rest);
    var c := Format(k, name, payload) + rest;
    assert c[7..7 + Min(|name|, MAX_NAME)] == c[7..7 + |name|][..Min(|name|, MAX_NAME)];
  }

  lemma Pieces(c: seq<Byte>, n: nat, end: nat)
    requires 11 + n <= end <= |c|
    ensures c[..end] == c[..4] + [c[4]] + c[5..7] + c[7..7 + n] + c[7 + n..11 + n] + c[11 + n..end]
  {
    assert c[..5] == c[..4] + [c[4]];
    assert c[..7] == c[..5] + c[5..7];
    assert c[..7 + n] == c[..7] + c[7..7 + n];
    assert c[..11 + n] == c[..7 + n] + c[7 + n..11 + n];
    assert c[..end] == c[..11 + n] + c[11 + n..end];
  }

  /** A carrier with magic, kind and room for what its length fields say begins with a container
      up to its checksum. */
  lemma HeaderIsBody(c: seq<Byte>)
    requires Parse(c) != Failed(ErrMagic)
    ensures var n := NameLength(c); 11 + n <= |c| && 15 + n + PayloadLength(c) <= |c|
    ensures var n, m := NameLength(c), PayloadLength(c); var k := if c[4] == KindByte(Text) then Text else File;
      c[..11 + n + m] == Body(k, c[7..7 + n], m, c[11 + n..11 + n + m])
  {
    hide Checksum, WriteBe16, WriteBe32, ReadBe16, ReadBe32;
    var n := NameLength(c);
    Be16Inverse(c[5..7]);
    Be32Inverse(c[7 + n..11 + n]);
    Pieces(c, n, 11 + n + PayloadLength(c));
  }

  /** Conversely, whatever decodes was formatted: the carrier begins with exactly the format of
      what is returned, under the full stored name. */
  lemma ParseIsSound(c: seq<Byte>)
    requires Parse(c).Extracted?
    ensures var n := NameLength(c); var r := Parse(c);
      && r.filename == c[7..7 + n][..Min(n, MAX_NAME)]
      && Format(r.kind, c[7..7 + n], r.data) <= c
  {
    hide Checksum, WriteBe32, ReadBe32, Body, NameLength, PayloadLength;
    HeaderIsBody(c);
    var n := NameLength(c);
    var end := 11 + n + PayloadLength(c);
    Be32Inverse(c[end..end + 4]);
    assert c[..end + 4] == c[..end] + c[end..end + 4];
  }

  lemma ParseOfPrefix(c: seq<Byte>, k: Kind, name: seq<Byte>, data: seq<Byte>)
    requires |name| < UINT16 && |data| < UINT32 && Format(k, name, data) <= c
    ensures Parse(c) == Extracted(k, name[..Min(|name|, MAX_NAME)], data)
  {
    hide Parse, Format;
    var f := Format(k, name, data);
    assert c == f + c[|f|..];
    ParseOfFormat(k, name, data, c[|f|..]);
  }

  /** `c` begins with a format of the result under the full name `name`, of which a decoder
      reports the first 255 bytes. */
  predicate HeldUnder(c: seq<Byte>, name: seq<Byte>, k: Kind, filename: seq<Byte>, data: seq<Byte>) {
    && |name| < UINT16 && |data| < UINT32
    && filename == name[..Min(|name|, MAX_NAME)]
    && Format(k, name, data) <= c
  }

  /** A carrier decodes to a result exactly when it begins with a format of that result. */
  lemma ParseCharacterised(c: seq<Byte>, k: Kind, filename: seq<Byte>, data: seq<Byte>)
    ensures Parse(c) == Extracted(k, filename, data) <==> exists name :: HeldUnder(c, name, k, filename, data)
  {
    hide Parse, Format, NameLength;
    if Parse(c) == Extracted(k, filename, data) {
      ParseIsSound(c);
      assert HeldUnder(c, c[7..7 + NameLength(c)], k, filename, data);
    }
    if name :| HeldUnder(c, name, k, filename, data) {
      ParseOfPrefix(c, k, name, data);
    }
  }

  /** `c` begins with everything of a container but its checksum, and has room for one. */
  predicate Framed(c: seq<Byte>, k: Kind, name: seq<Byte>, payload: seq<Byte>) {
    && |name| < UINT16 && |payload| < UINT32
    && 15 + |name| + |payload| <= |c|
    && Body(k, name, |payload|, payload) <= c
  }

  /** Where the container ought to have its checksum, `c` has the bytes `w`, which are not it. */
  predicate Damaged(c: seq<Byte>, k: Kind, name: seq<Byte>, payload: seq<Byte>, w: seq<Byte>) {
    && |name| < UINT16 && |payload| < UINT32 && |w| == 4
    && Body(k, name, |payload|, payload) + w <= c
    && w != WriteBe32(Checksum(Body(k, name, |payload|, payload)))
  }

  lemma FramedParse(c: seq<Byte>, k: Kind, name: seq<Byte>, payload: seq<Byte>)
    requires Framed(c, k, name, payload)
    ensures var end := 11 + |name| + |payload|;
      && (Parse(c) == Failed(ErrCrc) <==> c[end..end + 4] != WriteBe32(Checksum(c[..end])))
      && (Parse(c) == Failed(ErrCrc) || Parse(c).Extracted?)
      && c[..end] == Body(k, name, |payload|, payload)
  {
    hide Checksum, Body, ReadBe16, ReadBe32, WriteBe32;
    var body := Body(k, name, |payload|, payload);
    var end := 11 + |name| + |payload|;
    assert c == body + c[|body|..];
    BodyFields(k, name, payload, c[|body|..]);
    Be32Inverse(c[end..end + 4]);
    Be32(Checksum(c[..end]));
  }

  lemma NoMagicErrorIsFramed(c: seq<Byte>)
    requires Parse(c) != Failed(ErrMagic)
    ensures exists k, name, payload :: Framed(c, k, name, payload)
  {
    hide Parse, Body, NameLength, PayloadLength;
    HeaderIsBody(c);
    var n, m := NameLength(c), PayloadLength(c);
    var k := if c[4] == KindByte(Text) then Text else File;
    assert Framed(c, k, c[7..7 + n], c[11 + n..11 + n + m]);
  }

  /** Which error a carrier that does not decode gives: the checksum error exactly when it begins
      with a container whose checksum is wrong, and the magic error exactly when it begins with
      nothing that is a container up to its checksum. */
  lemma ParseErrors(c: seq<Byte>)
    ensures Parse(c) == Failed(ErrCrc) <==> exists k, name, payload, w :: Damaged(c, k, name, payload, w)
    ensures Parse(c) == Failed(ErrMagic) <==> !exists k, name, payload :: Framed(c, k, name, payload)
    ensures Parse(c).Extracted? || Parse(c) == Failed(ErrCrc) || Parse(c) == Failed(ErrMagic)
  {
    hide Parse, Body, Checksum, WriteBe32, Framed;
    if k, name, payload, w :| Damaged(c, k, name, payload, w) {
      DamagedParse(c, k, name, payload, w);
    }
    if Parse(c) != Failed(ErrMagic) {
      NoMagicErrorIsFramed(c);
      var k, name, payload :| Framed(c, k, name, payload);
      FramedParse(c, k, name, payload);
      if Parse(c) == Failed(ErrCrc) {
        FramedIsDamaged(c, k, name, payload);
      }
    }
    if k, name, payload :| Framed(c, k, name, payload) {
      FramedParse(c, k, name, payload);
    }
  }

  lemma DamagedParse(c: seq<Byte>, k: Kind, name: seq<Byte>, payload: seq<Byte>, w: seq<Byte>)
    requires Damaged(c, k, name, payload, w)
    ensures Parse(c) == Failed(ErrCrc)
  {
    hide Parse, Body, Checksum, WriteBe32;
    var body := Body(k, name, |payload|, payload);
    assert c == (body + w) + c[|body| + 4..];
    assert c[|body|..|body| + 4] == w;
    FramedParse(c, k, name, payload);
  }

  lemma FramedIsDamaged(c: seq<Byte>, k: Kind, name: seq<Byte>, payload: seq<Byte>)
    requires Framed(c, k, name, payload) && Parse(c) == Failed(ErrCrc)
    ensures exists w :: Damaged(c, k, name, payload, w)
  {
    hide Parse, Body, Checksum, WriteBe32;
    FramedParse(c, k, name, payload);
    var end := 11 + |name| + |payload|;
    assert c[..end] + c[end..end + 4] == c[..end + 4];
    assert Damaged(c, k, name, payload, c[end..end + 4]);
  }

  /** No carrier can be read two ways. */
  lemma FormatUnambiguous(c: seq<Byte>, k: Kind, name: seq<Byte>, data: seq<Byte>,
                          k': Kind, name': seq<Byte>, data': seq<Byte>)
    requires |name| < UINT16 && |data| < UINT32 && |name'| < UINT16 && |data'| < UINT32
    ensures Format(k, name, data) <= c && Format(k', name', data') <= c ==> k == k' && name == name' && data == data'
  {
    hide Format, NameLength, PayloadLength, Body, Checksum, ReadBe32;
    var f, f' := Format(k, name, data), Format(k', name', data');
    if f <= c && f' <= c {
      assert c == f + c[|f|..] && c == f' + c[|f'|..];
      FormatFields(k, name, data, c[|f|..]);
      FormatFields(k', name', data', c[|f'|..]);
    }
  }
}
