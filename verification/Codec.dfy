/** The steganography codec: containers written to and read from carriers. */
module Codec {
  import opened Util
  import opened Bits
  import opened Crc32
  import opened Carrier
  import opened Container

  /** The contents of a NUL-terminated C string. */
  type CString = s: seq<Byte> | 0 !in s

  const SLASH: Byte := 0x2F

  /** The part of a path after its last slash. */
  function Basename(path: seq<Byte>): (name: seq<Byte>)
    ensures |name| <= |path| && name == path[|path| - |name|..]
    ensures SLASH !in name
    ensures |name| < |path| ==> path[|path| - |name| - 1] == SLASH
  {
    if path == [] || path[|path| - 1] == SLASH then []
    else Basename(path[..|path| - 1]) + [path[|path| - 1]]
  }

  // ----- Building a container in a buffer

  /** memcpy to a position of a buffer. */
  method Put(buf: array<Byte>, pos: nat, src: seq<Byte>)
    requires pos + |src| <= buf.Length
    modifies buf
    ensures buf[..pos] == old(buf[..pos])
    ensures buf[..pos + |src|] == old(buf[..pos]) + src
  {
    forall i | 0 <= i < |src| {
      buf[pos + i] := src[i];
    }
  }

  /** Lays out magic, kind, name length, name, payload length, payload and checksum. */
  method BuildContainer(table: CrcTable, k: Kind, filename: CString, payload: seq<Byte>) returns (buf: array<Byte>)
    requires table.Valid()
    modifies table, table.entries
    ensures table.Valid() && fresh(buf)
    ensures buf[..] == Built(k, filename, payload)
  {
    hide WriteBe16, WriteBe32, Crc, Entry, StoredName, Body;
    var fnLen := 0;
    if k == File {
      fnLen := |filename|;
      if fnLen > MAX_NAME {
        fnLen := MAX_NAME;
      }
    }
    StoredNameCut(k, filename);
    var total := 4 + 1 + 2 + fnLen + 4 + |payload| + 4;
    buf := new Byte[total];
    var pos := FillBody(buf, k, filename[..fnLen], |payload| % UINT32, payload);
    var crc := table.Checksum(buf, pos);
    Put(buf, pos, WriteBe32(crc as nat));
    assert buf[..] == buf[..pos + 4];
  }

  method FillHeader(buf: array<Byte>, k: Kind, name: seq<Byte>) returns (pos: nat)
    requires |name| < UINT16 && 7 + |name| <= buf.Length
    modifies buf
    ensures pos == 7 + |name|
    ensures buf[..pos] == MAGIC + [KindByte(k)] + WriteBe16(|name|) + name
  {
    hide WriteBe16;
    pos := 0;
    Put(buf, pos, MAGIC);
    pos := pos + 4;
    Put(buf, pos, [KindByte(k)]);
    pos := pos + 1;
    Put(buf, pos, WriteBe16(|name|));
    pos := pos + 2;
    Put(buf, pos, name);
    pos := pos + |name|;
  }

  method FillBody(buf: array<Byte>, k: Kind, name: seq<Byte>, lengthField: nat, payload: seq<Byte>) returns (pos: nat)
    requires |name| < UINT16 && lengthField < UINT32
    requires 11 + |name| + |payload| <= buf.Length
    modifies buf
    ensures pos == 11 + |name| + |payload|
    ensures buf[..pos] == Body(k, name, lengthField, payload)
  {
    hide WriteBe16, WriteBe32;
    pos := FillHeader(buf, k, name);
    Put(buf, pos, WriteBe32(lengthField));
    pos := pos + 4;
    Put(buf, pos, payload);
    pos := pos + |payload|;
  }

  lemma StoredNameCut(k: Kind, filename: seq<Byte>)
    ensures StoredName(k, filename) == filename[..if k == File then Min(|filename|, MAX_NAME) else 0]
  {
  }

  // ----- Encoding

  method EncodeCommon(table: CrcTable, img: Image, k: Kind, filename: CString, payload: seq<Byte>) returns (status: Status)
    requires table.Valid() && img.Valid()
    modifies table, table.entries, img.px
    ensures table.Valid()
    ensures status == if 8 * |Built(k, filename, payload)| > img.BitCapacity() then ErrCapacity else Ok
    ensures status == Ok ==> img.Lsb() == Overlay(Built(k, filename, payload), old(img.Lsb()))
    ensures forall y, x :: 0 <= y < img.height && 0 <= x < img.px.Length1 ==>
      img.px[y, x] ==
        if status == Ok && img.IsDataSample(y, x) && img.BitIndex(y, x) < 8 * |Built(k, filename, payload)|
        then SetLsb(old(img.px[y, x]), ToBits(Built(k, filename, payload))[img.BitIndex(y, x)])
        else old(img.px[y, x])
  {
    hide Built, SetLsb, ToBits;
    var container := BuildContainer(table, k, filename, payload);
    var neededBits := container.Length * 8;
    var availBits := img.BitCapacity();
    assert container[..] == Built(k, filename, payload);
    if neededBits > availBits {
      return ErrCapacity;
    }
    img.EmbedBits(container[..]);
    return Ok;
  }

  // ----- Decoding

  /** Recovers what is hidden, or says whether there is a container with a wrong checksum or none. */
  method Decode(table: CrcTable, img: Image) returns (r: Decoded)
    requires table.Valid() && img.Valid()
    modifies table, table.entries
    ensures table.Valid()
    ensures r == Parse(ToBytes(img.Lsb()))
    ensures r == Failed(ErrCrc) <==> exists k, name, payload, w :: Damaged(ToBytes(img.Lsb()), k, name, payload, w)
    ensures r == Failed(ErrMagic) <==> !exists k, name, payload :: Framed(ToBytes(img.Lsb()), k, name, payload)
  {
    hide Parse, ToBytes, Damaged, Framed;
    r := DecodeInStages(table, img);
    ParseErrors(ToBytes(img.Lsb()));
  }

  method DecodeInStages(table: CrcTable, img: Image) returns (r: Decoded)
    requires table.Valid() && img.Valid()
    modifies table, table.entries
    ensures table.Valid()
    ensures r == Parse(ToBytes(img.Lsb()))
  {
    hide Crc, Entry, ReadBe16, ReadBe32, ToBytes;
    ghost var c := ToBytes(img.Lsb());
    var availBytes := img.BitCapacity() / 8;
    if availBytes < HEADER_MIN_LEN {
      return Failed(ErrMagic);
    }
    var header := ExtractBytes(img, 7);
    assert header[..4] == header[..][0..4] && header[5..7] == header[..][5..7];
    if header[..4] != MAGIC {
      return Failed(ErrMagic);
    }
    var kindByte := header[4];
    if kindByte != KindByte(Text) && kindByte != KindByte(File) {
      return Failed(ErrMagic);
    }
    var fnLen := ReadBe16(header[5..7]);
    PrefixSlice(c, 7, 0, 4);
    PrefixSlice(c, 7, 5, 7);
    var totalNeeded := 7 + fnLen + 4;
    if totalNeeded > availBytes {
      return Failed(ErrMagic);
    }
    var probe := ExtractBytes(img, totalNeeded);
    PrefixSlice(c, totalNeeded, 7 + fnLen, 11 + fnLen);
    assert probe[7 + fnLen..11 + fnLen] == probe[..][7 + fnLen..11 + fnLen];
    var payloadLen := ReadBe32(probe[7 + fnLen..11 + fnLen]);
    var containerLen := 7 + fnLen + 4 + payloadLen + 4;
    if containerLen > availBytes {
      return Failed(ErrMagic);
    }
    r := OpenContainer(table, img, kindByte, fnLen, payloadLen);
  }

  /** The decoder's last stage: the whole container is extracted, checked and taken apart. */
  method OpenContainer(table: CrcTable, img: Image, kindByte: Byte, fnLen: nat, payloadLen: nat) returns (r: Decoded)
    requires table.Valid() && img.Valid()
    requires HEADER_MIN_LEN + fnLen + payloadLen <= img.BitCapacity() / 8
    modifies table, table.entries
    ensures table.Valid()
    ensures var c := ToBytes(img.Lsb()); var end := 11 + fnLen + payloadLen;
      r == if ReadBe32(c[end..end + 4]) != Checksum(c[..end]) then Failed(ErrCrc)
           else Extracted(if kindByte == KindByte(Text) then Text else File,
                          c[7..7 + Min(fnLen, MAX_NAME)], c[11 + fnLen..end])
  {
    hide Crc, Entry, ReadBe32, ToBytes;
    var containerLen := 7 + fnLen + 4 + payloadLen + 4;
    ghost var c := ToBytes(img.Lsb());
    var buf := ExtractBytes(img, containerLen);
    var storedCrc := ReadBe32(buf[containerLen - 4..containerLen]);
    var calcCrc := table.Checksum(buf, containerLen - 4);
    assert buf[..] == c[..containerLen];
    PrefixSlice(c, containerLen, containerLen - 4, containerLen);
    PrefixSlice(c, containerLen, 0, containerLen - 4);
    assert buf[..containerLen - 4] == buf[..][0..containerLen - 4] && c[..containerLen - 4] == c[0..containerLen - 4];
    assert buf[containerLen - 4..containerLen] == buf[..][containerLen - 4..containerLen];
    if storedCrc != calcCrc as nat {
      return Failed(ErrCrc);
    }
    var copy := if fnLen < MAX_NAME then fnLen else MAX_NAME;
    PrefixSlice(c, containerLen, 7, 7 + copy);
    PrefixSlice(c, containerLen, 11 + fnLen, 11 + fnLen + payloadLen);
    assert buf[7..7 + copy] == buf[..][7..7 + copy];
    assert buf[11 + fnLen..11 + fnLen + payloadLen] == buf[..][11 + fnLen..11 + fnLen + payloadLen];
    r := Extracted(if kindByte == KindByte(Text) then Text else File,
                   buf[7..7 + copy], buf[11 + fnLen..11 + fnLen + payloadLen]);
  }

  lemma PrefixSlice(c: seq<Byte>, n: nat, i: nat, j: nat)
    requires i <= j <= n <= |c|
    ensures c[..n][i..j] == c[i..j]
  {
  }

  /** Each stage of the decoder sees a prefix of one and the same byte string. */
  method ExtractBytes(img: Image, n: nat) returns (data: array<Byte>)
    requires img.Valid() && n <= img.BitCapacity() / 8
    ensures fresh(data) && data.Length == n
    ensures data[..] == ToBytes(img.Lsb())[..n]
  {
    data := new Byte[n];
    img.ExtractBits(data);
    PrefixBytes(img.Lsb(), n);
  }
}
