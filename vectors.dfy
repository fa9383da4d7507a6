/** The byte strings the codec's unit tests check, and what the model makes of
    them. */
module Vectors {
  import opened Bytes
  import VarInt
  import BitVector
  import Signature
  import PackInfo
  import ArchiveProperties
  import Records
  import Io

  // ---------------------------------------------------------------------------
  // encode_uint64

  lemma EncodeOneByte()
    ensures VarInt.Encode(1) == [0x01]
    ensures VarInt.Encode(127) == [0x7f]
  {
  }

  lemma EncodeTwoThreeBytes()
    ensures VarInt.Encode(128) == [0x80, 0x80]
    ensures VarInt.Encode(65535) == [0xc0, 0xff, 0xff]
  {
  }

  lemma EncodeFourFiveBytes()
    ensures VarInt.Encode(0x7fffff) == [0xe0, 0x7f, 0xff, 0xff]
    ensures VarInt.Encode(0xffffffff) == [0xf0, 0xff, 0xff, 0xff, 0xff]
  {
  }

  lemma EncodeSixBytes()
    ensures VarInt.Encode(0x7f1234567f) == [0xf8, 0x7f, 0x12, 0x34, 0x56, 0x7f]
  {
  }

  lemma EncodeEightBytes()
    ensures VarInt.Encode(0x1234567890abcd) == [0xfe, 0x12, 0x34, 0x56, 0x78, 0x90, 0xab, 0xcd]
  {
  }

  lemma EncodeNineBytes()
    ensures VarInt.Encode(0xcf1234567890abcd) == [0xff, 0xcf, 0x12, 0x34, 0x56, 0x78, 0x90, 0xab, 0xcd]
  {
    assert BeBytes(0xcf, 2) == [0x00, 0xcf];
    assert BeBytes(0xcf12, 3) == [0x00, 0xcf, 0x12];
    assert BeBytes(0xcf1234, 4) == [0x00, 0xcf, 0x12, 0x34];
    assert BeBytes(0xcf123456, 5) == [0x00, 0xcf, 0x12, 0x34, 0x56];
    assert BeBytes(0xcf12345678, 6) == [0x00, 0xcf, 0x12, 0x34, 0x56, 0x78];
    assert BeBytes(0xcf1234567890, 7) == [0x00, 0xcf, 0x12, 0x34, 0x56, 0x78, 0x90];
    assert BeBytes(0xcf1234567890ab, 8) == [0x00, 0xcf, 0x12, 0x34, 0x56, 0x78, 0x90, 0xab];
    assert BeBytes(0xcf1234567890abcd, 9) == [0x00, 0xcf, 0x12, 0x34, 0x56, 0x78, 0x90, 0xab, 0xcd];
  }

  // ---------------------------------------------------------------------------
  // write_boolean

  const BOOLEANS: seq<bool> := [true, false, true, true, false, true, false, false, true]

  lemma WriteBooleans()
    ensures BitVector.Encoded(BOOLEANS, false) == [0xb4, 0x80]
    ensures BitVector.Encoded(BOOLEANS, true) == [0x00, 0xb4, 0x80]
  {
  }

  // ---------------------------------------------------------------------------
  // PackInfo.write

  const PACK: PackInfo.PackInfo := PackInfo.PackInfo(0x02345678, [0x1234, 0x3456, 0x5678], None)

  lemma PackSizesBytes()
    ensures Io.UInt64sBytes(PACK.packSizes) == [0x92, 0x34, 0xb4, 0x56, 0xc0, 0x56, 0x78]
  {
    assert VarInt.Encode(0x1234) == [0x92, 0x34];
    assert VarInt.Encode(0x3456) == [0xb4, 0x56];
    assert VarInt.Encode(0x5678) == [0xc0, 0x56, 0x78];
  }

  lemma WritePackInfo()
    ensures PackInfo.Serialized(PACK)
      == [0xe2, 0x34, 0x56, 0x78, 0x03, 0x09, 0x92, 0x34, 0xb4, 0x56, 0xc0, 0x56, 0x78, 0x00]
  {
    assert VarInt.Encode(0x02345678) == [0xe2, 0x34, 0x56, 0x78];
    PackSizesBytes();
    assert PackInfo.Serialized(PACK) == [0xe2, 0x34, 0x56, 0x78] + ([0x03] + ([0x09]
      + ([0x92, 0x34, 0xb4, 0x56, 0xc0, 0x56, 0x78] + ([] + [0x00]))));
  }

  // ---------------------------------------------------------------------------
  // ArchiveProperties.retrieve

  lemma ReadArchiveProperties()
    ensures ArchiveProperties.Parse([0x02, 0x07, 0x01, 0x23, 0x00]) == Ok(([Records.Record(0x07, [0x23])], []))
  {
    var items := [Records.Record(0x07, [0x23])];
    assert Records.RecordsBytes(items) == [0x07, 0x01, 0x23];
    assert ArchiveProperties.Serialized(items) + [] == [0x02, 0x07, 0x01, 0x23, 0x00];
    ArchiveProperties.ParseSerialized(items, []);
  }

  // ---------------------------------------------------------------------------
  // SignatureHeader.retrieve

  /** The 32 bytes of the test archive's prologue, grouped by field. */
  const PROLOGUE: seq<byte> :=
    [0x37, 0x7a, 0xbc, 0xaf, 0x27, 0x1c] + ([0x00] + ([0x02] + ([0x70, 0x2a, 0xb7, 0x37]
    + ([0xa0, 0x00, 0x00, 0x00, 0x00, 0x00, 0x00, 0x00] + ([0x21, 0x00, 0x00, 0x00, 0x00, 0x00, 0x00, 0x00]
    + [0xb9, 0xb8, 0xe4, 0xbf])))))

  const SIGNATURE: Signature.SignatureHeader :=
    Signature.SignatureHeader(Signature.MAGIC, (0, 2), 0x37b72a70, 160, 0x21, 0xbfe4b8b9)

  lemma FieldBytes()
    ensures LeBytes(0x37b72a70, 4) == [0x70, 0x2a, 0xb7, 0x37]
    ensures LeBytes(0xbfe4b8b9, 4) == [0xb9, 0xb8, 0xe4, 0xbf]
  {
  }

  lemma OffsetBytes()
    ensures LeBytes(160, 8) == [0xa0, 0x00, 0x00, 0x00, 0x00, 0x00, 0x00, 0x00]
    ensures LeBytes(0x21, 8) == [0x21, 0x00, 0x00, 0x00, 0x00, 0x00, 0x00, 0x00]
  {
  }

  lemma PrologueBytes()
    ensures Signature.Serialized(SIGNATURE) == PROLOGUE
  {
    FieldBytes();
    OffsetBytes();
  }

  lemma ReadSignature()
    ensures Signature.Parse(PROLOGUE) == Ok((SIGNATURE, []))
    ensures SIGNATURE.version == (0, 2) && SIGNATURE.nextHeaderOffset == 160
  {
    PrologueBytes();
    Signature.ParseSerialized(SIGNATURE, []);
    assert PROLOGUE + [] == PROLOGUE;
  }
}
