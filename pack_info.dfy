/** The pack-info section (`PackInfo`): where the packed streams start and how
    long each is, with optional CRCs. The section's 0x06 tag is read by the
    enclosing streams-info reader and is not part of what this module reads or
    writes. */
module PackInfo {
  import opened Bytes
  import opened BytesIO
  import VarInt
  import Io
  import Property

  /** `packpos`, `packsizes` and the kCRC digest list, `None` when the section
      has no CRC block. */
  datatype PackInfo = PackInfo(packPos: uint64, packSizes: seq<uint64>, digests: Option<seq<Option<uint32>>>)

  /** A record the writer can emit and the reader can produce: a stream count
      that fits the count field, and one digest slot per stream. */
  predicate Valid(p: PackInfo)
  {
    |p.packSizes| < 0x1_0000_0000_0000_0000
    && (p.digests.Some? ==> |p.digests.value| == |p.packSizes|)
  }

  // ---------------------------------------------------------------------------
  // Reading

  /** `PackInfo.retrieve`: the pack position, the stream count, the kSize list
      (required), then the digests and END. */
  function Parse(s: seq<byte>): (r: Result<(PackInfo, seq<byte>)>)
    ensures r.Ok? ==> Valid(r.value.0) && |r.value.1| < |s|
  {
    var packPos :- VarInt.Decode(s);
    var count :- VarInt.Decode(packPos.1);
    var t :- Property.Expect(count.1, Property.SIZE);
    var sizes :- Io.UInt64s(t, count.0, []);
    var digests :- Io.DigestsEnd(sizes.1, count.0);
    Ok((PackInfo(packPos.0, sizes.0, digests.0), digests.1))
  }

  /** `PackInfo.retrieve` on a reader. */
  method Retrieve(f: ByteReader) returns (res: Result<PackInfo>)
    modifies f
    ensures f.Follows(res, Parse(old(f.rest)))
  {
    var packPos :- Io.ReadUInt64(f);
    var count :- Io.ReadUInt64(f);
    var tag :- f.ReadByte();
    if tag != Property.SIZE {
      return Err(UnexpectedProperty(tag));
    }
    var sizes :- Io.ReadUInt64s(f, count);
    var digests :- Io.ReadDigestsEnd(f, count);
    return Ok(PackInfo(packPos, sizes, digests));
  }

  // ---------------------------------------------------------------------------
  // Writing

  /** What `PackInfo.write` emits: the pack position, the stream count, kSize and
      the sizes, the kCRC block when there are digests, then END. */
  function Serialized(p: PackInfo): seq<byte>
    requires |p.packSizes| < 0x1_0000_0000_0000_0000
  {
    VarInt.Encode(p.packPos) + (VarInt.Encode(|p.packSizes|) + ([Property.SIZE]
    + (Io.UInt64sBytes(p.packSizes) + (Io.DigestsPart(p.digests) + [Property.END]))))
  }

  /** `PackInfo.write`. */
  method Write(f: ByteWriter, p: PackInfo)
    requires |p.packSizes| < 0x1_0000_0000_0000_0000
    modifies f
    ensures f.buf == old(f.buf) + Serialized(p)
  {
    Io.WriteUInt64(f, p.packPos);
    Io.WriteUInt64(f, |p.packSizes|);
    f.WriteByte(Property.SIZE);
    ghost var start := f.buf;
    var i := 0;
    while i < |p.packSizes|
      invariant i <= |p.packSizes|
      invariant f.buf == start + Io.UInt64sBytes(p.packSizes[..i])
    {
      Io.UInt64sBytesStep(start, p.packSizes, i);
      Io.WriteUInt64(f, p.packSizes[i]);
      i := i + 1;
    }
    assert p.packSizes[..i] == p.packSizes;
    ghost var mid := f.buf;
    if p.digests.Some? {
      f.WriteByte(Property.CRC);
      Io.WriteDigests(f, p.digests.value);
    }
    assert f.buf == mid + Io.DigestsPart(p.digests);
    f.WriteByte(Property.END);
    WrittenParts(old(f.buf), p);
  }

  lemma WrittenParts(before: seq<byte>, p: PackInfo)
    requires |p.packSizes| < 0x1_0000_0000_0000_0000
    ensures before + VarInt.Encode(p.packPos) + VarInt.Encode(|p.packSizes|) + [Property.SIZE]
      + Io.UInt64sBytes(p.packSizes) + Io.DigestsPart(p.digests) + [Property.END]
      == before + Serialized(p)
  {
  }

  // ---------------------------------------------------------------------------
  // Round trip

  /** Every valid record is read back from what `PackInfo.write` emits for it,
      and the bytes after the section are left unread. */
  lemma ParseSerialized(p: PackInfo, rest: seq<byte>)
    requires Valid(p)
    ensures Parse(Serialized(p) + rest) == Ok((p, rest))
  {
    var n := |p.packSizes|;
    var t4 := Io.DigestsPart(p.digests) + ([Property.END] + rest);
    var t3 := Io.UInt64sBytes(p.packSizes) + t4;
    var t2 := [Property.SIZE] + t3;
    var t1 := VarInt.Encode(n) + t2;
    SerializedSplit(p, rest);
    VarInt.DecodeEncode(p.packPos, t1);
    VarInt.DecodeEncode(n, t2);
    Property.ExpectCons(Property.SIZE, t3);
    Io.UInt64sRoundTrip(p.packSizes, t4, []);
    assert [] + p.packSizes == p.packSizes;
    Io.DigestsEndRoundTrip(p.digests, n, rest);
  }

  lemma SerializedSplit(p: PackInfo, rest: seq<byte>)
    requires |p.packSizes| < 0x1_0000_0000_0000_0000
    ensures Serialized(p) + rest
      == VarInt.Encode(p.packPos) + (VarInt.Encode(|p.packSizes|) + ([Property.SIZE]
         + (Io.UInt64sBytes(p.packSizes) + (Io.DigestsPart(p.digests) + ([Property.END] + rest)))))
  {
  }

}
