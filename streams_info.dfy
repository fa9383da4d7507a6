/** The streams-info section (`StreamsInfo`): the pack info, the unpack info
    (folders) and the substreams info, each optional and announced by its own
    tag, closed by END. The tag that opens the whole section (0x03 or 0x04 in a
    header, none in an encoded header) is read by the caller.

    As in the substreams reader, each stage receives the property id read
    last and decides from it which part follows. */
module StreamsInfo {
  import opened Bytes
  import opened BytesIO
  import Property
  import PackInfo
  import UnpackInfo
  import SubStreams

  datatype StreamsInfo = StreamsInfo(
    packInfo: Option<PackInfo.PackInfo>,
    unpackInfo: Option<UnpackInfo.UnpackInfo>,
    subStreams: Option<SubStreams.SubStreams>)

  /** The substreams of the folders the unpack info declares. */
  predicate SubStreamsFit(u: UnpackInfo.UnpackInfo, ss: SubStreams.SubStreams)
    requires UnpackInfo.Valid(u)
  {
    SubStreams.Valid(ss, UnpackInfo.FolderSizes(u), UnpackInfo.FolderCrcDefined(u))
  }

  /** What the reader produces and the writer accepts: every part valid, and
      substreams only after the folders they cut up. */
  predicate Valid(si: StreamsInfo)
  {
    (si.packInfo.Some? ==> PackInfo.Valid(si.packInfo.value))
    && (si.unpackInfo.Some? ==> UnpackInfo.Valid(si.unpackInfo.value))
    && (si.subStreams.Some? ==> si.unpackInfo.Some? && SubStreamsFit(si.unpackInfo.value, si.subStreams.value))
  }

  // ---------------------------------------------------------------------------
  // Reading

  /** `StreamsInfo.retrieve`. */
  function Parse(s: seq<byte>): (r: Result<(StreamsInfo, seq<byte>)>)
    ensures r.Ok? ==> |r.value.1| < |s|
  {
    var pid :- TakeByte(s);
    AfterStart(pid.0, pid.1)
  }

  /** kPackInfo and the pack info, if `pid` announces them. */
  function AfterStart(pid: byte, s: seq<byte>): (r: Result<(StreamsInfo, seq<byte>)>)
    ensures r.Ok? ==> |r.value.1| <= |s|
  {
    if pid == Property.PACK_INFO then
      var p :- PackInfo.Parse(s);
      var next :- TakeByte(p.1);
      AfterPack(Some(p.0), next.0, next.1)
    else
      AfterPack(None, pid, s)
  }

  /** kUnpackInfo and the folders, if `pid` announces them. */
  function AfterPack(pack: Option<PackInfo.PackInfo>, pid: byte, s: seq<byte>): (r: Result<(StreamsInfo, seq<byte>)>)
    ensures r.Ok? ==> |r.value.1| <= |s|
  {
    if pid == Property.UNPACK_INFO then
      var u :- UnpackInfo.Parse(s);
      var next :- TakeByte(u.1);
      AfterUnpack(pack, Some(u.0), next.0, next.1)
    else
      AfterUnpack(pack, None, pid, s)
  }

  /** kSubStreamsInfo and the substreams, if `pid` announces them; they need
      the folders read before them. */
  function AfterUnpack(pack: Option<PackInfo.PackInfo>, unpack: Option<UnpackInfo.UnpackInfo>, pid: byte, s: seq<byte>)
    : (r: Result<(StreamsInfo, seq<byte>)>)
    requires unpack.Some? ==> UnpackInfo.Valid(unpack.value)
    ensures r.Ok? ==> |r.value.1| <= |s|
  {
    if pid == Property.SUBSTREAMS_INFO then
      if unpack.None? then Err(MalformedSubStreams)
      else
        var u := unpack.value;
        var ss :- SubStreams.Parse(s, UnpackInfo.FolderSizes(u), UnpackInfo.FolderCrcDefined(u));
        var next :- TakeByte(ss.1);
        Property.Close(StreamsInfo(pack, unpack, Some(ss.0)), next.0, next.1)
    else
      Property.Close(StreamsInfo(pack, unpack, None), pid, s)
  }

  // ---------------------------------------------------------------------------
  // What the reader accepts

  /** Every section the reader accepts is valid: in particular the substream
      sizes of each folder add up to the folder's decoded size. */
  lemma ParseValid(s: seq<byte>)
    requires Parse(s).Ok?
    ensures Valid(Parse(s).value.0)
  {
    var pid := TakeByte(s).value;
    if pid.0 == Property.PACK_INFO {
      var p := PackInfo.Parse(pid.1).value;
      var next := TakeByte(p.1).value;
      AfterPackValid(Some(p.0), next.0, next.1);
    } else {
      AfterPackValid(None, pid.0, pid.1);
    }
  }

  lemma AfterPackValid(pack: Option<PackInfo.PackInfo>, pid: byte, s: seq<byte>)
    requires pack.Some? ==> PackInfo.Valid(pack.value)
    requires AfterPack(pack, pid, s).Ok?
    ensures Valid(AfterPack(pack, pid, s).value.0)
  {
    if pid == Property.UNPACK_INFO {
      var u := UnpackInfo.Parse(s).value;
      var next := TakeByte(u.1).value;
      AfterUnpackValid(pack, Some(u.0), next.0, next.1);
    } else {
      AfterUnpackValid(pack, None, pid, s);
    }
  }

  lemma AfterUnpackValid(pack: Option<PackInfo.PackInfo>, unpack: Option<UnpackInfo.UnpackInfo>, pid: byte, s: seq<byte>)
    requires pack.Some? ==> PackInfo.Valid(pack.value)
    requires unpack.Some? ==> UnpackInfo.Valid(unpack.value)
    requires AfterUnpack(pack, unpack, pid, s).Ok?
    ensures Valid(AfterUnpack(pack, unpack, pid, s).value.0)
  {
    if pid == Property.SUBSTREAMS_INFO {
      var u := unpack.value;
      SubStreams.ParseValid(s, UnpackInfo.FolderSizes(u), UnpackInfo.FolderCrcDefined(u));
    }
  }

  /** How many substream digests the kCRC block of the substreams info holds,
      given the folders' own CRCs: never more than there are substreams, one per
      substream when no folder has a CRC, and none when every folder has a CRC
      and a single substream, whose CRC is then the folder's. */
  lemma SubStreamDigestCount(u: UnpackInfo.UnpackInfo, counts: seq<uint64>)
    requires UnpackInfo.Valid(u) && |counts| == |u.folders|
    ensures SubStreams.NumDigests(counts, UnpackInfo.FolderCrcDefined(u)) <= SubStreams.Sum(counts)
    ensures u.digests.None? ==> SubStreams.NumDigests(counts, UnpackInfo.FolderCrcDefined(u)) == SubStreams.Sum(counts)
    ensures u.digests.Some? && (forall i | 0 <= i < |counts| :: counts[i] == 1 && u.digests.value[i].Some?)
            ==> SubStreams.NumDigests(counts, UnpackInfo.FolderCrcDefined(u)) == 0
  {
    var crc := UnpackInfo.FolderCrcDefined(u);
    SubStreams.NumDigestsBounds(counts, crc);
    if u.digests.None? {
      assert forall i | 0 <= i < |crc| :: !crc[i];
    } else {
      assert forall i | 0 <= i < |crc| :: crc[i] == u.digests.value[i].Some?;
    }
  }

  // ---------------------------------------------------------------------------
  // Reading from a reader

  /** `StreamsInfo.retrieve` on a reader. */
  method Retrieve(f: ByteReader) returns (res: Result<StreamsInfo>)
    modifies f
    ensures f.Follows(res, Parse(old(f.rest)))
  {
    var pid :- f.ReadByte();
    res := ReadAfterStart(f, pid);
  }

  method ReadAfterStart(f: ByteReader, pid: byte) returns (res: Result<StreamsInfo>)
    modifies f
    ensures f.Follows(res, AfterStart(pid, old(f.rest)))
  {
    if pid == Property.PACK_INFO {
      var p :- PackInfo.Retrieve(f);
      var next :- f.ReadByte();
      res := ReadAfterPack(f, Some(p), next);
    } else {
      res := ReadAfterPack(f, None, pid);
    }
  }

  method ReadAfterPack(f: ByteReader, pack: Option<PackInfo.PackInfo>, pid: byte) returns (res: Result<StreamsInfo>)
    modifies f
    ensures f.Follows(res, AfterPack(pack, pid, old(f.rest)))
  {
    if pid == Property.UNPACK_INFO {
      var u :- UnpackInfo.Retrieve(f);
      var next :- f.ReadByte();
      res := ReadAfterUnpack(f, pack, Some(u), next);
    } else {
      res := ReadAfterUnpack(f, pack, None, pid);
    }
  }

  method ReadAfterUnpack(f: ByteReader, pack: Option<PackInfo.PackInfo>, unpack: Option<UnpackInfo.UnpackInfo>, pid: byte)
    returns (res: Result<StreamsInfo>)
    requires unpack.Some? ==> UnpackInfo.Valid(unpack.value)
    modifies f
    ensures f.Follows(res, AfterUnpack(pack, unpack, pid, old(f.rest)))
  {
    var si := StreamsInfo(pack, unpack, None);
    var last := pid;
    if pid == Property.SUBSTREAMS_INFO {
      if unpack.None? {
        return Err(MalformedSubStreams);
      }
      var u := unpack.value;
      var ss :- SubStreams.Retrieve(f, UnpackInfo.FolderSizes(u), UnpackInfo.FolderCrcDefined(u));
      si := StreamsInfo(pack, unpack, Some(ss));
      last :- f.ReadByte();
    }
    if last != Property.END {
      return Err(UnexpectedProperty(last));
    }
    return Ok(si);
  }

  // ---------------------------------------------------------------------------
  // Writing, the layout the reader expects

  function PackPart(pack: Option<PackInfo.PackInfo>): seq<byte>
    requires pack.Some? ==> PackInfo.Valid(pack.value)
  {
    if pack.None? then [] else [Property.PACK_INFO] + PackInfo.Serialized(pack.value)
  }

  function UnpackPart(unpack: Option<UnpackInfo.UnpackInfo>): seq<byte>
    requires unpack.Some? ==> UnpackInfo.Valid(unpack.value)
  {
    if unpack.None? then [] else [Property.UNPACK_INFO] + UnpackInfo.Serialized(unpack.value)
  }

  function SubStreamsPart(si: StreamsInfo): seq<byte>
    requires Valid(si)
  {
    if si.subStreams.None? then []
    else
      var u := si.unpackInfo.value;
      [Property.SUBSTREAMS_INFO]
      + SubStreams.Serialized(si.subStreams.value, UnpackInfo.FolderSizes(u), UnpackInfo.FolderCrcDefined(u))
  }

  /** Each part that is present behind its tag, then END. */
  function Serialized(si: StreamsInfo): seq<byte>
    requires Valid(si)
  {
    PackPart(si.packInfo) + (UnpackPart(si.unpackInfo) + (SubStreamsPart(si) + [Property.END]))
  }

  // ---------------------------------------------------------------------------
  // Round trip

  /** The substreams part and END read back. */
  lemma AfterUnpackSerialized(si: StreamsInfo, t: seq<byte>, rest: seq<byte>)
    requires Valid(si) && t == SubStreamsPart(si) + ([Property.END] + rest)
    ensures |t| > 0 && t[0] != Property.PACK_INFO && t[0] != Property.UNPACK_INFO
    ensures AfterUnpack(si.packInfo, si.unpackInfo, t[0], t[1..]) == Ok((si, rest))
  {
    if si.subStreams.None? {
      assert t == [Property.END] + rest;
    } else {
      var u := si.unpackInfo.value;
      var fs, fc := UnpackInfo.FolderSizes(u), UnpackInfo.FolderCrcDefined(u);
      var body := SubStreams.Serialized(si.subStreams.value, fs, fc);
      AppendAssoc([Property.SUBSTREAMS_INFO], body, [Property.END] + rest);
      assert t[1..] == body + ([Property.END] + rest);
      SubStreams.ParseSerialized(si.subStreams.value, fs, fc, [Property.END] + rest);
      TakeByteCons(Property.END, rest);
    }
  }

  /** The unpack part, the substreams part and END read back. */
  lemma AfterPackSerialized(si: StreamsInfo, t: seq<byte>, rest: seq<byte>)
    requires Valid(si) && t == UnpackPart(si.unpackInfo) + (SubStreamsPart(si) + ([Property.END] + rest))
    ensures |t| > 0 && t[0] != Property.PACK_INFO
    ensures AfterPack(si.packInfo, t[0], t[1..]) == Ok((si, rest))
  {
    var t2 := SubStreamsPart(si) + ([Property.END] + rest);
    AfterUnpackSerialized(si, t2, rest);
    if si.unpackInfo.Some? {
      var body := UnpackInfo.Serialized(si.unpackInfo.value);
      AppendAssoc([Property.UNPACK_INFO], body, t2);
      assert t == [Property.UNPACK_INFO] + (body + t2);
      UnpackInfo.ParseSerialized(si.unpackInfo.value, t2);
      UnpackRead(si, body, t2, t, rest);
    } else {
      assert t == t2;
      NoUnpackRead(si, t, rest);
    }
  }

  lemma NoUnpackRead(si: StreamsInfo, t: seq<byte>, rest: seq<byte>)
    requires si.unpackInfo.None? && |t| > 0 && t[0] != Property.PACK_INFO && t[0] != Property.UNPACK_INFO
    requires AfterUnpack(si.packInfo, si.unpackInfo, t[0], t[1..]) == Ok((si, rest))
    ensures AfterPack(si.packInfo, t[0], t[1..]) == Ok((si, rest))
  {
  }

  lemma UnpackRead(si: StreamsInfo, body: seq<byte>, t2: seq<byte>, t: seq<byte>, rest: seq<byte>)
    requires si.unpackInfo.Some? && UnpackInfo.Valid(si.unpackInfo.value)
    requires t == [Property.UNPACK_INFO] + (body + t2) && UnpackInfo.Parse(body + t2) == Ok((si.unpackInfo.value, t2))
    requires |t2| > 0 && AfterUnpack(si.packInfo, si.unpackInfo, t2[0], t2[1..]) == Ok((si, rest))
    ensures |t| > 0 && t[0] != Property.PACK_INFO
    ensures AfterPack(si.packInfo, t[0], t[1..]) == Ok((si, rest))
  {
    assert t[1..] == body + t2;
  }

  /** The pack part, if present, read back, then the rest of the section. */
  lemma PackPartRead(si: StreamsInfo, t: seq<byte>, rest: seq<byte>)
    requires si.packInfo.Some? ==> PackInfo.Valid(si.packInfo.value)
    requires |t| > 0 && t[0] != Property.PACK_INFO
    requires AfterPack(si.packInfo, t[0], t[1..]) == Ok((si, rest))
    ensures Parse(PackPart(si.packInfo) + t) == Ok((si, rest))
  {
    var whole := PackPart(si.packInfo) + t;
    if si.packInfo.Some? {
      var body := PackInfo.Serialized(si.packInfo.value);
      AppendAssoc([Property.PACK_INFO], body, t);
      assert whole == [Property.PACK_INFO] + (body + t);
      PackInfo.ParseSerialized(si.packInfo.value, t);
      PackRead(si.packInfo.value, body + t, t, si, rest);
    } else {
      assert whole == t;
      NoPackRead(si, t, rest);
    }
  }

  /** An absent pack part: the first byte read already belongs to what follows. */
  lemma NoPackRead(si: StreamsInfo, t: seq<byte>, rest: seq<byte>)
    requires si.packInfo.None? && |t| > 0 && t[0] != Property.PACK_INFO
    requires AfterPack(si.packInfo, t[0], t[1..]) == Ok((si, rest))
    ensures Parse(t) == Ok((si, rest))
  {
  }

  lemma PackRead(p: PackInfo.PackInfo, s: seq<byte>, t: seq<byte>, si: StreamsInfo, rest: seq<byte>)
    requires PackInfo.Parse(s) == Ok((p, t))
    requires |t| > 0 && AfterPack(Some(p), t[0], t[1..]) == Ok((si, rest))
    ensures Parse([Property.PACK_INFO] + s) == Ok((si, rest))
  {
    TakeByteCons(Property.PACK_INFO, s);
  }

  /** Every section the writer accepts is read back from its serialization,
      and the bytes after it are left unread. */
  lemma ParseSerialized(si: StreamsInfo, rest: seq<byte>)
    requires Valid(si)
    ensures Parse(Serialized(si) + rest) == Ok((si, rest))
  {
    var t := UnpackPart(si.unpackInfo) + (SubStreamsPart(si) + ([Property.END] + rest));
    SerializedSplit(si, rest);
    AfterPackSerialized(si, t, rest);
    PackPartRead(si, t, rest);
  }

  lemma SerializedSplit(si: StreamsInfo, rest: seq<byte>)
    requires Valid(si)
    ensures Serialized(si) + rest
      == PackPart(si.packInfo) + (UnpackPart(si.unpackInfo) + (SubStreamsPart(si) + ([Property.END] + rest)))
  {
    var c := SubStreamsPart(si) + [Property.END];
    var b := UnpackPart(si.unpackInfo) + c;
    AppendAssoc(PackPart(si.packInfo), b, rest);
    AppendAssoc(UnpackPart(si.unpackInfo), c, rest);
    AppendAssoc(SubStreamsPart(si), [Property.END], rest);
  }
}
