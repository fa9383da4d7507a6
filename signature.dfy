/** The signature header: the fixed 32 bytes at the start of an archive that
    say where the header (the "next header") is stored. */
module Signature {
  import opened Bytes
  import opened BytesIO
  import Io

  /** The 7z magic, `'7z\xbc\xaf\x27\x1c'`. */
  const MAGIC: seq<byte> := [0x37, 0x7a, 0xbc, 0xaf, 0x27, 0x1c]

  const SIZE: nat := 32

  datatype SignatureHeader = SignatureHeader(
    magic: seq<byte>,
    version: (byte, byte),
    startHeaderCrc: uint32,   // CRC32 of the next three fields
    nextHeaderOffset: uint64, // from the end of these 32 bytes
    nextHeaderSize: uint64,
    nextHeaderCrc: uint32)    // CRC32 of the header bytes

  /** `SignatureHeader.retrieve`: six magic bytes, two version bytes, then the
      little-endian CRC, offset, size and CRC fields. */
  function Parse(s: seq<byte>): (r: Result<(SignatureHeader, seq<byte>)>)
    ensures r.Ok? <==> SIZE <= |s|
    ensures r.Ok? ==> |r.value.1| == |s| - SIZE
  {
    var magic :- Take(s, 6);
    var major :- TakeByte(magic.1);
    var minor :- TakeByte(major.1);
    var startCrc :- Io.UInt32(minor.1);
    var offset :- Io.RealUInt64(startCrc.1);
    var size :- Io.RealUInt64(offset.1);
    var nextCrc :- Io.UInt32(size.1);
    Ok((SignatureHeader(magic.0, (major.0, minor.0), startCrc.0, offset.0, size.0, nextCrc.0), nextCrc.1))
  }

  /** The 32 bytes of a signature header. */
  function Serialized(h: SignatureHeader): seq<byte>
  {
    h.magic + ([h.version.0] + ([h.version.1] + (LeBytes(h.startHeaderCrc, 4)
    + (LeBytes(h.nextHeaderOffset, 8) + (LeBytes(h.nextHeaderSize, 8) + LeBytes(h.nextHeaderCrc, 4))))))
  }

  /** `SignatureHeader.retrieve` on a reader: the same fields, the cursor moved
      past the 32 bytes. */
  method Retrieve(f: ByteReader) returns (res: Result<SignatureHeader>)
    modifies f
    ensures f.Follows(res, Parse(old(f.rest)))
  {
    var magic :- f.Read(6);
    var major :- f.ReadByte();
    var minor :- f.ReadByte();
    var startCrc :- Io.ReadUInt32(f);
    var offset :- Io.ReadRealUInt64(f);
    var size :- Io.ReadRealUInt64(f);
    var nextCrc :- Io.ReadUInt32(f);
    res := Ok(SignatureHeader(magic, (major, minor), startCrc, offset, size, nextCrc));
  }

  /** Every header with a six-byte magic is read back from its bytes, and the
      bytes after them are left unread. */
  lemma ParseSerialized(h: SignatureHeader, rest: seq<byte>)
    requires |h.magic| == 6
    ensures Parse(Serialized(h) + rest) == Ok((h, rest))
  {
    var t6 := LeBytes(h.nextHeaderCrc, 4) + rest;
    var t5 := LeBytes(h.nextHeaderSize, 8) + t6;
    var t4 := LeBytes(h.nextHeaderOffset, 8) + t5;
    var t3 := LeBytes(h.startHeaderCrc, 4) + t4;
    var t2 := [h.version.1] + t3;
    var t1 := [h.version.0] + t2;
    SerializedSplit(h, rest);
    TakeAppend(h.magic, t1);
    TakeByteCons(h.version.0, t2);
    TakeByteCons(h.version.1, t3);
    Io.UInt32RoundTrip(h.startHeaderCrc, t4);
    Io.RealUInt64RoundTrip(h.nextHeaderOffset, t5);
    Io.RealUInt64RoundTrip(h.nextHeaderSize, t6);
    Io.UInt32RoundTrip(h.nextHeaderCrc, rest);
  }

  lemma SerializedSplit(h: SignatureHeader, rest: seq<byte>)
    ensures Serialized(h) + rest == h.magic + ([h.version.0] + ([h.version.1] + (LeBytes(h.startHeaderCrc, 4)
      + (LeBytes(h.nextHeaderOffset, 8) + (LeBytes(h.nextHeaderSize, 8) + (LeBytes(h.nextHeaderCrc, 4) + rest))))))
  {
  }

  /** Conversely, the header read from any 32 bytes writes back as exactly those
      bytes: the header keeps every byte of the prologue. */
  lemma SerializedParse(s: seq<byte>)
    requires SIZE <= |s|
    ensures Parse(s).Ok? && Serialized(Parse(s).value.0) + Parse(s).value.1 == s
  {
    var h := Parse(s).value.0;
    var magic := Take(s, 6).value;
    var major := TakeByte(magic.1).value;
    var minor := TakeByte(major.1).value;
    var startCrc := Io.UInt32(minor.1).value;
    var offset := Io.RealUInt64(startCrc.1).value;
    var size := Io.RealUInt64(offset.1).value;
    var nextCrc := Io.UInt32(size.1).value;
    SerializedSplit(h, nextCrc.1);
  }

  /** The magic and the version are bytes 0-5 and 6-7 of the prologue; the
      start-header CRC, the next-header offset, its size and its CRC are the
      little-endian fields at bytes 8-11, 12-19, 20-27 and 28-31. */
  lemma ParseFields(s: seq<byte>)
    requires SIZE <= |s|
    ensures Parse(s).value.0.magic == s[..6]
    ensures Parse(s).value.0.version == (s[6], s[7])
    ensures LeBytes(Parse(s).value.0.startHeaderCrc, 4) == s[8..12]
    ensures LeBytes(Parse(s).value.0.nextHeaderOffset, 8) == s[12..20]
    ensures LeBytes(Parse(s).value.0.nextHeaderSize, 8) == s[20..28]
    ensures LeBytes(Parse(s).value.0.nextHeaderCrc, 4) == s[28..32]
  {
    var magic := Take(s, 6).value;
    assert magic.1 == s[6..];
    var major := TakeByte(magic.1).value;
    assert s[6] == major.0 && major.1 == s[7..];
    var minor := TakeByte(major.1).value;
    assert s[7] == minor.0 && minor.1 == s[8..];
    var startCrc := Io.UInt32(minor.1).value;
    FieldAt(s, 8, 4, LeBytes(startCrc.0, 4), startCrc.1);
    var offset := Io.RealUInt64(startCrc.1).value;
    FieldAt(s, 12, 8, LeBytes(offset.0, 8), offset.1);
    var size := Io.RealUInt64(offset.1).value;
    FieldAt(s, 20, 8, LeBytes(size.0, 8), size.1);
    var nextCrc := Io.UInt32(size.1).value;
    FieldAt(s, 28, 4, LeBytes(nextCrc.0, 4), nextCrc.1);
  }

  /** A field of `n` bytes read from the suffix at `at` is bytes `at` to `at + n`,
      and what follows it is the suffix at `at + n`. */
  lemma FieldAt(s: seq<byte>, at: nat, n: nat, field: seq<byte>, rest: seq<byte>)
    requires at <= |s| && |field| == n && field + rest == s[at..]
    ensures at + n <= |s| && field == s[at..at + n] && rest == s[at + n..]
  {
    assert field == (field + rest)[..n];
    assert rest == (field + rest)[n..];
  }
}
