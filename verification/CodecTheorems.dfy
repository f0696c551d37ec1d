/** What the codec as a whole promises: round trips, soundness and capacity. */
module CodecTheorems {
  import opened Util
  import opened Bits
  import opened Crc32
  import opened Carrier
  import opened Container
  import opened Codec

  /** The bytes a carrier holds after embedding begin with what was embedded. */
  lemma EmbeddedBytes(data: seq<Byte>, stream: seq<bool>)
    requires 8 * |data| <= |stream|
    ensures data <= ToBytes(Overlay(data, stream))
  {
    WrittenBytesAreRead(data, stream[8 * |data|..]);
  }

  /** Encoding followed by decoding, on any carrier the container fits in, returns the kind, name
      and payload that were encoded if and only if the payload length fits its 32-bit field and
      the name is one the format stores whole. */
  lemma RoundTrip(k: Kind, filename: CString, payload: seq<Byte>, stream: seq<bool>)
    requires 8 * |Built(k, filename, payload)| <= |stream|
    ensures Parse(ToBytes(Overlay(Built(k, filename, payload), stream))) == Extracted(k, filename, payload)
      <==> |payload| < 0x1_0000_0000 && |filename| <= if k == File then 255 else 0
  {
    hide Overlay, Built, Format, Parse, ToBytes;
    var c := ToBytes(Overlay(Built(k, filename, payload), stream));
    var name := StoredName(k, filename);
    if |payload| < UINT32 {
      EmbeddedBytes(Built(k, filename, payload), stream);
      BuiltIsFormat(k, filename, payload);
      ParseOfPrefix(c, k, name, payload);
      assert name[..Min(|name|, MAX_NAME)] == name;
    }
  }

  lemma BuiltIsFormat(k: Kind, filename: seq<Byte>, payload: seq<Byte>)
    requires |payload| < UINT32
    ensures Built(k, filename, payload) == Format(k, StoredName(k, filename), payload)
  {
    hide Body, Seal, StoredName;
  }

  /** A file name longer than 255 bytes is cut, not refused: decoding returns its first 255 bytes. */
  lemma LongNameIsCut(filename: CString, payload: seq<Byte>, stream: seq<bool>)
    requires |filename| > 255 && |payload| < UINT32
    requires 8 * |Built(File, filename, payload)| <= |stream|
    ensures Parse(ToBytes(Overlay(Built(File, filename, payload), stream))) == Extracted(File, filename[..255], payload)
  {
    hide Overlay, Built, StoredName, Format, Parse, ToBytes;
    StoredNameCut(File, filename);
    EmbeddedBytes(Built(File, filename, payload), stream);
    BuiltIsFormat(File, filename, payload);
    var name := filename[..MAX_NAME];
    ParseOfPrefix(ToBytes(Overlay(Built(File, filename, payload), stream)), File, name, payload);
    assert name[..Min(|name|, MAX_NAME)] == name;
  }

  /** A decoded name as C code reads it: up to the first NUL. */
  function AsCString(s: seq<Byte>): (r: CString)
    ensures r <= s && (0 !in s ==> r == s)
    decreases |s|
  {
    if s == [] || s[0] == 0 then [] else [s[0]] + AsCString(s[1..])
  }

  /** The name field of a carrier that holds a container. */
  function NameField(c: seq<Byte>): (s: seq<Byte>)
    requires |c| >= 7 && 7 + NameLength(c) <= |c|
    ensures |s| == NameLength(c)
  {
    c[7..7 + NameLength(c)]
  }

  /** The name field is one the encoder can write: at most 255 bytes, no NUL, and none for a text. */
  predicate EncoderName(k: Kind, field: seq<Byte>) {
    |field| <= MAX_NAME && 0 !in field && (k == File || field == [])
  }

  /** A successful decode means the carrier begins with exactly what the encoder would build for the
      kind, name and payload returned, if and only if the name field is one the encoder can write. */
  lemma DecodedWasEncoded(c: seq<Byte>)
    ensures Parse(c).Extracted? ==>
      var r := Parse(c);
      (Built(r.kind, AsCString(r.filename), r.data) <= c) == EncoderName(r.kind, NameField(c))
  {
    hide Parse, Body, Checksum, NameLength, AsCString, Format, Built;
    var r := Parse(c);
    if r.Extracted? {
      var field := NameField(c);
      var name := AsCString(r.filename);
      ParseIsSound(c);
      BuiltIsFormat(r.kind, name, r.data);
      var stored := StoredName(r.kind, name);
      if Built(r.kind, name, r.data) <= c {
        FormatUnambiguous(c, r.kind, stored, r.data, r.kind, field, r.data);
      }
      if EncoderName(r.kind, field) {
        assert field[..Min(|field|, MAX_NAME)] == field;
        assert stored == field;
      }
    }
  }

  /** The same, read on the carrier's LSB stream: it begins with the bits of the container. */
  lemma DecodedStreamWasEncoded(stream: seq<bool>)
    ensures var c := ToBytes(stream); var r := Parse(c);
      r.Extracted? && EncoderName(r.kind, NameField(c)) ==> ToBits(Built(r.kind, AsCString(r.filename), r.data)) <= stream
  {
    hide Parse, ToBytes, Built, NameLength, AsCString, EncoderName;
    var c := ToBytes(stream);
    DecodedWasEncoded(c);
    var r := Parse(c);
    if r.Extracted? && EncoderName(r.kind, NameField(c)) {
      var b := Built(r.kind, AsCString(r.filename), r.data);
      ReadBytesWereWritten(stream, |b|);
      assert c[..|b|] == b;
    }
  }

  // ----- Capacity

  /** The advertised payload capacity of a carrier of `bits` bits. */
  function PayloadMax(bits: nat): nat {
    var totalBytes := bits / 8;
    if totalBytes > HEADER_MIN_LEN then totalBytes - HEADER_MIN_LEN else 0
  }

  /** What the encoder accepts, exactly: the carrier must hold the fifteen fixed bytes, and the
      stored name and the payload together must be within the advertised capacity. */
  lemma CapacityIsExact(bits: nat, k: Kind, filename: CString, payload: seq<Byte>)
    ensures 8 * |Built(k, filename, payload)| <= bits <==>
      bits / 8 >= HEADER_MIN_LEN && |StoredName(k, filename)| + |payload| <= PayloadMax(bits)
  {
    hide Body, Checksum, StoredName;
  }

  /** So the advertised capacity alone decides acceptance except in one case: the empty message
      on a carrier too small for the fixed bytes, advertised as 0 but refused. */
  lemma AdvertisedCapacityDecides(bits: nat, k: Kind, filename: CString, payload: seq<Byte>)
    ensures (8 * |Built(k, filename, payload)| <= bits <==> |StoredName(k, filename)| + |payload| <= PayloadMax(bits))
      <==> bits / 8 >= HEADER_MIN_LEN || |StoredName(k, filename)| + |payload| > 0
  {
    hide Body, Checksum, StoredName;
    CapacityIsExact(bits, k, filename, payload);
  }

  datatype Capacity = Capacity(payloadMaxBytes: nat, width: nat, height: nat, channels: int, dataChannels: nat)

  method GetCapacity(img: Image) returns (cap: Capacity)
    requires img.Valid()
    ensures cap == Capacity(PayloadMax(img.width * img.height * 3), img.width, img.height, img.channels, 3)
  {
    var bits := img.BitCapacity();
    var totalBytes := bits / 8;
    var overhead := HEADER_MIN_LEN;
    cap := Capacity(if totalBytes > overhead then totalBytes - overhead else 0,
                    img.width, img.height, img.channels, img.DataChannels());
  }

  // ----- The encoder's entry points

  /** No sample of the image has changed. */
  twostate predicate Unchanged(img: Image)
    requires img.Valid()
    reads img.px
  {
    forall y, x :: 0 <= y < img.height && 0 <= x < img.px.Length1 ==> img.px[y, x] == old(img.px[y, x])
  }

  method EncodeText(table: CrcTable, img: Image, text: seq<Byte>) returns (status: Status)
    requires table.Valid() && img.Valid()
    modifies table, table.entries, img.px
    ensures table.Valid()
    ensures status == Ok <==> img.BitCapacity() / 8 >= HEADER_MIN_LEN && |text| <= PayloadMax(img.BitCapacity())
    ensures status == Ok && |text| < UINT32 ==> Parse(ToBytes(img.Lsb())) == Extracted(Text, [], text)
    ensures status != Ok ==> status == ErrCapacity && Unchanged(img)
  {
    hide Built, Overlay;
    CapacityIsExact(img.BitCapacity(), Text, [], text);
    status := EncodeCommon(table, img, Text, [], text);
    if status == Ok {
      RoundTrip(Text, [], text, old(img.Lsb()));
    }
  }

  /** The file's own name is stored unless the caller gives one, be it empty. */
  function NameToStore(path: CString, storeAs: Option<CString>): CString {
    if storeAs.Some? then storeAs.value else Basename(path)
  }

  /** A given name is stored as it is; without one, what follows the path's last slash, or all of
      it if there is none. */
  lemma StoredFileName(path: CString, storeAs: Option<CString>)
    ensures storeAs.Some? ==> NameToStore(path, storeAs) == storeAs.value
    ensures storeAs.None? ==> exists dir: seq<Byte> {:trigger dir + NameToStore(path, storeAs)} ::
      && path == dir + NameToStore(path, storeAs) && 0x2F !in NameToStore(path, storeAs)
      && (dir == [] || dir[|dir| - 1] == 0x2F)
  {
    if storeAs.None? {
      var name := NameToStore(path, storeAs);
      var dir := path[..|path| - |name|];
      assert path == dir + name;
    }
  }

  method EncodeFile(table: CrcTable, img: Image, path: CString, contents: seq<Byte>, storeAs: Option<CString>)
    returns (status: Status)
    requires table.Valid() && img.Valid()
    modifies table, table.entries, img.px
    ensures table.Valid()
    ensures var fn := NameToStore(path, storeAs);
      && ((status == Ok) ==
           (img.BitCapacity() / 8 >= HEADER_MIN_LEN && |StoredName(File, fn)| + |contents| <= PayloadMax(img.BitCapacity())))
      && (status == Ok && |contents| < UINT32 && |fn| <= MAX_NAME ==>
           Parse(ToBytes(img.Lsb())) == Extracted(File, fn, contents))
    ensures status != Ok ==> status == ErrCapacity && Unchanged(img)
  {
    hide Built, Overlay, StoredName;
    var fn := NameToStore(path, storeAs);
    CapacityIsExact(img.BitCapacity(), File, fn, contents);
    status := EncodeCommon(table, img, File, fn, contents);
    if status == Ok {
      RoundTrip(File, fn, contents, old(img.Lsb()));
    }
  }
}
