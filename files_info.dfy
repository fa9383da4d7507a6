/** The files-info section (`FilesInfo`): the number of files, then one property
    record per column (kEmptyStream, kEmptyFile, kAnti, kName, the three
    timestamps, kWinAttributes), each record holding that property for every
    file at once, closed by END. The section's 0x05 tag is read by the caller.

    The columns are kept as they are stored; `Files` builds the per-file view
    from them. */
module FilesInfo {
  import opened Bytes
  import opened BytesIO
  import VarInt
  import Io
  import Property
  import BitVector
  import Records
  import Utf16

  /** A FILETIME per file, `None` where the time is not defined. */
  type Times = seq<Option<uint64>>

  datatype FilesInfo = FilesInfo(
    numFiles: uint64,
    emptyStream: Option<seq<bool>>,
    emptyFile: Option<seq<bool>>,
    anti: Option<seq<bool>>,
    names: Option<seq<string>>,
    creationTime: Option<Times>,
    lastAccessTime: Option<Times>,
    lastWriteTime: Option<Times>,
    attributes: Option<seq<Option<uint32>>>)

  /** `numFiles` files and no column read yet. */
  function Empty(n: uint64): FilesInfo
  {
    FilesInfo(n, None, None, None, None, None, None, None, None)
  }

  /** The number of true values. */
  function CountTrue(bs: seq<bool>): (r: nat)
    ensures r <= |bs|
  {
    if bs == [] then 0 else CountTrue(bs[..|bs| - 1]) + (if bs[|bs| - 1] then 1 else 0)
  }

  /** The number of files with no data stream: the length of the kEmptyFile
      and kAnti vectors, which only cover those files. */
  function NumEmptyStreams(info: FilesInfo): nat
  {
    if info.emptyStream.None? then 0 else CountTrue(info.emptyStream.value)
  }

  predicate AllStorable(names: seq<string>)
  {
    forall i | 0 <= i < |names| :: Utf16.Storable(names[i])
  }

  /** What the reader produces: every column that spans all files has one
      entry per file, and no name holds a NUL. */
  predicate Valid(info: FilesInfo)
  {
    var n := info.numFiles as nat;
    (info.emptyStream.Some? ==> |info.emptyStream.value| == n)
    && (info.names.Some? ==> |info.names.value| == n && AllStorable(info.names.value))
    && (info.creationTime.Some? ==> |info.creationTime.value| == n)
    && (info.lastAccessTime.Some? ==> |info.lastAccessTime.value| == n)
    && (info.lastWriteTime.Some? ==> |info.lastWriteTime.value| == n)
    && (info.attributes.Some? ==> |info.attributes.value| == n)
  }

  // ---------------------------------------------------------------------------
  // Reading one column

  /** A record's payload must be used up exactly. */
  function Whole<T>(r: Result<(T, seq<byte>)>): (w: Result<T>)
    ensures w.Ok? <==> r.Ok? && r.value.1 == []
    ensures w.Ok? ==> w.value == r.value.0
    ensures r.Ok? && r.value.1 != [] ==> w == Err(MalformedFilesInfo)
  {
    if r.Err? then Err(r.error)
    else if r.value.1 != [] then Err(MalformedFilesInfo)
    else Ok(r.value.0)
  }

  /** `n` names, each up to its zero unit, appended to `acc`. */
  function Names(s: seq<byte>, n: nat, acc: seq<string>): (r: Result<(seq<string>, seq<byte>)>)
    requires |acc| <= n
    ensures r.Ok? ==> |r.value.0| == n && |r.value.1| <= |s|
    decreases n - |acc|
  {
    if |acc| == n then Ok((acc, s))
    else
      var name :- Utf16.Name(s);
      Names(name.1, n, acc + [name.0])
  }

  /** The kName payload: the external flag, then the names. Names kept in
      another stream are not read. */
  function NamesBlock(s: seq<byte>, n: nat): (r: Result<(seq<string>, seq<byte>)>)
    ensures r.Ok? ==> |r.value.0| == n && AllStorable(r.value.0)
    ensures |s| > 0 && s[0] != 0 ==> r == Err(Unsupported)
  {
    var external :- TakeByte(s);
    if external.0 != 0 then Err(Unsupported)
    else
      var names :- Names(external.1, n, []);
      NamesStorable(external.1, n, []);
      Ok(names)
  }

  /** `read_real_uint64` for each defined entry. */
  function Stamps(s: seq<byte>, defined: seq<bool>, acc: Times): (r: Result<(Times, seq<byte>)>)
    ensures r.Ok? ==> |r.value.0| == |acc| + |defined| && |r.value.1| <= |s|
    decreases |defined|
  {
    if defined == [] then Ok((acc, s))
    else
      var next :- if defined[0] then
          var t :- Io.RealUInt64(s);
          Ok((Some(t.0), t.1))
        else Ok((None, s));
      Stamps(next.1, defined[1..], acc + [next.0])
  }

  /** A timestamp payload: the defined vector (0x01 for all defined), the
      external flag, then a FILETIME per defined file. */
  function TimesBlock(s: seq<byte>, n: nat): (r: Result<(Times, seq<byte>)>)
    ensures r.Ok? ==> |r.value.0| == n
  {
    var defined :- BitVector.Read(s, n, true);
    var external :- TakeByte(defined.1);
    if external.0 != 0 then Err(Unsupported)
    else Stamps(external.1, defined.0, [])
  }

  /** The kWinAttributes payload: the defined vector, the external flag, then a
      little-endian u32 per defined file. */
  function AttributesBlock(s: seq<byte>, n: nat): (r: Result<(seq<Option<uint32>>, seq<byte>)>)
    ensures r.Ok? ==> |r.value.0| == n
  {
    var defined :- BitVector.Read(s, n, true);
    var external :- TakeByte(defined.1);
    if external.0 != 0 then Err(Unsupported)
    else Io.Crcs(external.1, defined.0, [])
  }

  /** The kinds of record the reader interprets. */
  predicate Known(kind: byte)
  {
    kind in {Property.EMPTY_STREAM, Property.EMPTY_FILE, Property.ANTI, Property.NAME,
             Property.CREATION_TIME, Property.LAST_ACCESS_TIME, Property.LAST_WRITE_TIME, Property.ATTRIBUTES}
  }

  /** One property record applied to the columns read so far. A record of a
      kind the reader does not know, kDummy padding among them, is skipped. */
  function Apply(info: FilesInfo, r: Records.Record): (res: Result<FilesInfo>)
    ensures res.Ok? ==> res.value.numFiles == info.numFiles
    ensures res.Ok? && Valid(info) ==> Valid(res.value)
    ensures !Known(r.kind) ==> res == Ok(info)
  {
    var n := info.numFiles as nat;
    var d := r.data;
    if r.kind == Property.EMPTY_STREAM then
      var v :- Whole(BitVector.Read(d, n, false));
      Ok(info.(emptyStream := Some(v)))
    else if r.kind == Property.EMPTY_FILE then
      var v :- Whole(BitVector.Read(d, NumEmptyStreams(info), false));
      Ok(info.(emptyFile := Some(v)))
    else if r.kind == Property.ANTI then
      var v :- Whole(BitVector.Read(d, NumEmptyStreams(info), false));
      Ok(info.(anti := Some(v)))
    else if r.kind == Property.NAME then
      var v :- Whole(NamesBlock(d, n));
      Ok(info.(names := Some(v)))
    else if r.kind == Property.CREATION_TIME then
      var v :- Whole(TimesBlock(d, n));
      Ok(info.(creationTime := Some(v)))
    else if r.kind == Property.LAST_ACCESS_TIME then
      var v :- Whole(TimesBlock(d, n));
      Ok(info.(lastAccessTime := Some(v)))
    else if r.kind == Property.LAST_WRITE_TIME then
      var v :- Whole(TimesBlock(d, n));
      Ok(info.(lastWriteTime := Some(v)))
    else if r.kind == Property.ATTRIBUTES then
      var v :- Whole(AttributesBlock(d, n));
      Ok(info.(attributes := Some(v)))
    else Ok(info)
  }

  /** The property records up to and including END. */
  function Properties(s: seq<byte>, info: FilesInfo): (r: Result<(FilesInfo, seq<byte>)>)
    ensures r.Ok? ==> |r.value.1| < |s| && r.value.0.numFiles == info.numFiles
    decreases |s|
  {
    var next :- Records.Next(s);
    if next.0.None? then Ok((info, next.1))
    else
      var applied :- Apply(info, next.0.value);
      Properties(next.1, applied)
  }

  /** `FilesInfo.retrieve`: the number of files, then the property records. */
  function Parse(s: seq<byte>): (r: Result<(FilesInfo, seq<byte>)>)
    ensures r.Ok? ==> |r.value.1| < |s|
  {
    var n :- VarInt.Decode(s);
    Properties(n.1, Empty(n.0))
  }

  // ---------------------------------------------------------------------------
  // What the reader accepts

  lemma {:induction false} NamesStorable(s: seq<byte>, n: nat, acc: seq<string>)
    requires |acc| <= n && AllStorable(acc) && Names(s, n, acc).Ok?
    ensures AllStorable(Names(s, n, acc).value.0)
    decreases n - |acc|
  {
    if |acc| < n {
      var name := Utf16.Name(s).value;
      NamesStorable(name.1, n, acc + [name.0]);
    }
  }

  lemma {:induction false} PropertiesValid(s: seq<byte>, info: FilesInfo)
    requires Valid(info) && Properties(s, info).Ok?
    ensures Valid(Properties(s, info).value.0)
    decreases |s|
  {
    var next := Records.Next(s).value;
    if next.0.Some? {
      PropertiesValid(next.1, Apply(info, next.0.value).value);
    }
  }

  /** Every section the reader accepts has one entry per file in each column
      that spans all files, and names without NUL. */
  lemma ParseValid(s: seq<byte>)
    requires Parse(s).Ok?
    ensures Valid(Parse(s).value.0)
  {
    var n := VarInt.Decode(s).value;
    PropertiesValid(n.1, Empty(n.0));
  }

  // ---------------------------------------------------------------------------
  // Reading from a reader

  method ReadNames(f: ByteReader, n: nat) returns (res: Result<seq<string>>)
    modifies f
    ensures f.Follows(res, Names(old(f.rest), n, []))
  {
    var names: seq<string> := [];
    while |names| < n
      invariant |names| <= n
      invariant Names(f.rest, n, names) == Names(old(f.rest), n, [])
      decreases n - |names|
    {
      var name :- Utf16.ReadName(f);
      names := names + [name];
    }
    return Ok(names);
  }

  method ReadStamps(f: ByteReader, defined: seq<bool>) returns (res: Result<Times>)
    modifies f
    ensures f.Follows(res, Stamps(old(f.rest), defined, []))
  {
    var acc: Times := [];
    var i := 0;
    while i < |defined|
      invariant i <= |defined|
      invariant Stamps(f.rest, defined[i..], acc) == Stamps(old(f.rest), defined, [])
    {
      assert defined[i..][1..] == defined[i + 1..];
      if defined[i] {
        var t :- Io.ReadRealUInt64(f);
        acc := acc + [Some(t)];
      } else {
        acc := acc + [None];
      }
      i := i + 1;
    }
    return Ok(acc);
  }

  /** `_readTimes`. */
  method ReadTimes(f: ByteReader, n: nat) returns (res: Result<Times>)
    modifies f
    ensures f.Follows(res, TimesBlock(old(f.rest), n))
  {
    var defined :- Io.ReadBoolean(f, n, true);
    var external :- f.ReadByte();
    if external != 0 {
      return Err(Unsupported);
    }
    res := ReadStamps(f, defined);
  }

  /** The attributes column: the defined vector, the external flag, the values. */
  method ReadAttributes(f: ByteReader, n: nat) returns (res: Result<seq<Option<uint32>>>)
    modifies f
    ensures f.Follows(res, AttributesBlock(old(f.rest), n))
  {
    var defined :- Io.ReadBoolean(f, n, true);
    var external :- f.ReadByte();
    if external != 0 {
      return Err(Unsupported);
    }
    var acc: seq<Option<uint32>> := [];
    var i := 0;
    while i < |defined|
      invariant i <= |defined|
      invariant Io.Crcs(f.rest, defined[i..], acc) == AttributesBlock(old(f.rest), n)
    {
      assert defined[i..][1..] == defined[i + 1..];
      if defined[i] {
        var a :- Io.ReadUInt32(f);
        acc := acc + [Some(a)];
      } else {
        acc := acc + [None];
      }
      i := i + 1;
    }
    return Ok(acc);
  }

  /** One record's payload read through a reader of its own, which must be
      used up. */
  method ApplyRecord(info: FilesInfo, r: Records.Record) returns (res: Result<FilesInfo>)
    ensures res == Apply(info, r)
  {
    var n := info.numFiles as nat;
    var buffer := new ByteReader(r.data);
    if r.kind == Property.EMPTY_STREAM {
      var v :- Io.ReadBoolean(buffer, n, false);
      if buffer.rest != [] { return Err(MalformedFilesInfo); }
      return Ok(info.(emptyStream := Some(v)));
    } else if r.kind == Property.EMPTY_FILE {
      var v :- Io.ReadBoolean(buffer, NumEmptyStreams(info), false);
      if buffer.rest != [] { return Err(MalformedFilesInfo); }
      return Ok(info.(emptyFile := Some(v)));
    } else if r.kind == Property.ANTI {
      var v :- Io.ReadBoolean(buffer, NumEmptyStreams(info), false);
      if buffer.rest != [] { return Err(MalformedFilesInfo); }
      return Ok(info.(anti := Some(v)));
    } else if r.kind == Property.NAME {
      var external :- buffer.ReadByte();
      if external != 0 { return Err(Unsupported); }
      var v :- ReadNames(buffer, n);
      if buffer.rest != [] { return Err(MalformedFilesInfo); }
      return Ok(info.(names := Some(v)));
    } else if r.kind == Property.CREATION_TIME {
      var v :- ReadTimes(buffer, n);
      if buffer.rest != [] { return Err(MalformedFilesInfo); }
      return Ok(info.(creationTime := Some(v)));
    } else if r.kind == Property.LAST_ACCESS_TIME {
      var v :- ReadTimes(buffer, n);
      if buffer.rest != [] { return Err(MalformedFilesInfo); }
      return Ok(info.(lastAccessTime := Some(v)));
    } else if r.kind == Property.LAST_WRITE_TIME {
      var v :- ReadTimes(buffer, n);
      if buffer.rest != [] { return Err(MalformedFilesInfo); }
      return Ok(info.(lastWriteTime := Some(v)));
    } else if r.kind == Property.ATTRIBUTES {
      var v :- ReadAttributes(buffer, n);
      if buffer.rest != [] { return Err(MalformedFilesInfo); }
      return Ok(info.(attributes := Some(v)));
    }
    return Ok(info);
  }

  /** `FilesInfo.retrieve` on a reader. */
  method Retrieve(f: ByteReader) returns (res: Result<FilesInfo>)
    modifies f
    ensures f.Follows(res, Parse(old(f.rest)))
  {
    var n :- Io.ReadUInt64(f);
    var info := Empty(n);
    while true
      invariant Properties(f.rest, info) == Parse(old(f.rest))
      decreases |f.rest|
    {
      var next :- Records.ReadNext(f);
      if next.None? {
        return Ok(info);
      }
      info :- ApplyRecord(info, next.value);
    }
  }

  // ---------------------------------------------------------------------------
  // The per-file view

  /** One file's properties, gathered from the columns. */
  datatype FileEntry = FileEntry(
    emptyStream: bool,
    emptyFile: bool,
    anti: bool,
    name: Option<string>,
    creationTime: Option<uint64>,
    lastAccessTime: Option<uint64>,
    lastWriteTime: Option<uint64>,
    attributes: Option<uint32>)

  function Flag(bs: Option<seq<bool>>, i: nat): bool
  {
    bs.Some? && i < |bs.value| && bs.value[i]
  }

  function At<T>(column: Option<seq<Option<T>>>, i: nat): Option<T>
  {
    if column.Some? && i < |column.value| then column.value[i] else None
  }

  /** How many files before file `i` have no data stream: the position of file
      `i` in the kEmptyFile and kAnti vectors when it has none itself. */
  function EmptyBefore(info: FilesInfo, i: nat): nat
  {
    if info.emptyStream.Some? && i <= |info.emptyStream.value| then CountTrue(info.emptyStream.value[..i]) else 0
  }

  function Entry(info: FilesInfo, i: nat): FileEntry
    requires Valid(info) && i < info.numFiles as nat
  {
    var empty := Flag(info.emptyStream, i);
    FileEntry(
      empty,
      empty && Flag(info.emptyFile, EmptyBefore(info, i)),
      empty && Flag(info.anti, EmptyBefore(info, i)),
      if info.names.Some? then Some(info.names.value[i]) else None,
      At(info.creationTime, i),
      At(info.lastAccessTime, i),
      At(info.lastWriteTime, i),
      At(info.attributes, i))
  }

  /** `files`: one entry per file, in file order. Only files without a data
      stream can be empty files or anti-items, and each column read gives
      every file its own entry. */
  function Files(info: FilesInfo): (r: seq<FileEntry>)
    requires Valid(info)
    ensures |r| == info.numFiles as nat
    ensures forall i | 0 <= i < |r| :: (r[i].emptyFile || r[i].anti) ==> r[i].emptyStream
    ensures forall i | 0 <= i < |r| :: info.names.Some? ==> r[i].name == Some(info.names.value[i])
    ensures forall i | 0 <= i < |r| :: info.attributes.Some? ==> r[i].attributes == info.attributes.value[i]
    ensures forall i | 0 <= i < |r| :: info.creationTime.Some? ==> r[i].creationTime == info.creationTime.value[i]
    ensures forall i | 0 <= i < |r| :: info.lastAccessTime.Some? ==> r[i].lastAccessTime == info.lastAccessTime.value[i]
    ensures forall i | 0 <= i < |r| :: info.lastWriteTime.Some? ==> r[i].lastWriteTime == info.lastWriteTime.value[i]
  {
    seq(info.numFiles as nat, i requires 0 <= i < info.numFiles as nat && Valid(info) => Entry(info, i))
  }

  // ---------------------------------------------------------------------------
  // Which substream holds a file's data

  /** The files with a data stream take the substreams in order, skipping the
      files without one: file `i` has substream `i - EmptyBefore(info, i)`. */
  function StreamIndex(info: FilesInfo, i: nat): nat
    requires Valid(info) && i < info.numFiles as nat
  {
    i - EmptyBefore(info, i)
  }

  /** The number of files that have a data stream. */
  function NumStreams(info: FilesInfo): nat
    requires Valid(info)
  {
    info.numFiles as nat - NumEmptyStreams(info)
  }

  lemma CountTrueSnoc(bs: seq<bool>, k: nat)
    requires k < |bs|
    ensures CountTrue(bs[..k + 1]) == CountTrue(bs[..k]) + (if bs[k] then 1 else 0)
  {
    assert bs[..k + 1][..k] == bs[..k];
  }

  /** Over `bs[i..j]` the count grows by at most the number of elements, and by
      one less when `bs[i]` is false. */
  lemma {:induction false} CountTrueGrowth(bs: seq<bool>, i: nat, j: nat)
    requires i < j <= |bs|
    ensures CountTrue(bs[..j]) <= CountTrue(bs[..i]) + (j - i) - (if bs[i] then 0 else 1)
    decreases j - i
  {
    CountTrueSnoc(bs, j - 1);
    if j - 1 > i {
      CountTrueGrowth(bs, i, j - 1);
    }
  }

  /** Distinct files with data streams get distinct substreams, in file order,
      and every one of them is within the number of files with data streams. */
  lemma StreamIndexOrder(info: FilesInfo, i: nat, j: nat)
    requires Valid(info) && i < j < info.numFiles as nat
    requires !Flag(info.emptyStream, i) && !Flag(info.emptyStream, j)
    ensures StreamIndex(info, i) < StreamIndex(info, j) < NumStreams(info)
  {
    if info.emptyStream.Some? {
      var bs := info.emptyStream.value;
      CountTrueGrowth(bs, i, j);
      CountTrueGrowth(bs, j, |bs|);
      assert bs[..|bs|] == bs;
    }
  }

  // ---------------------------------------------------------------------------
  // Writing: the layout the reader expects

  /** The record kinds in the order they are written. */
  const KINDS: seq<byte> := [Property.EMPTY_STREAM, Property.EMPTY_FILE, Property.ANTI, Property.NAME,
                             Property.CREATION_TIME, Property.LAST_ACCESS_TIME, Property.LAST_WRITE_TIME,
                             Property.ATTRIBUTES]

  function NamesBytes(names: seq<string>): seq<byte>
  {
    if names == [] then [] else Utf16.NameBytes(names[0]) + NamesBytes(names[1..])
  }

  function DefinedStamps(ts: Times): (r: seq<bool>)
    ensures |r| == |ts|
  {
    if ts == [] then [] else [ts[0].Some?] + DefinedStamps(ts[1..])
  }

  function StampOf(t: Option<uint64>): seq<byte>
  {
    if t.None? then [] else LeBytes(t.value as nat, 8)
  }

  /** A FILETIME for each defined entry. */
  function StampBytes(ts: Times): seq<byte>
  {
    if ts == [] then [] else StampOf(ts[0]) + StampBytes(ts[1..])
  }

  /** A timestamp payload: the defined vector with its 0x00 marker, the
      external flag 0x00, then the defined times. */
  function TimesBytes(ts: Times): seq<byte>
  {
    BitVector.Encoded(DefinedStamps(ts), true) + ([0] + StampBytes(ts))
  }

  function AttributesBytes(attrs: seq<Option<uint32>>): seq<byte>
  {
    BitVector.Encoded(Io.DefinedOf(attrs), true) + ([0] + Io.CrcBytes(attrs))
  }

  /** The payload of the `k`-th kind, when that column is present. */
  function Payload(info: FilesInfo, k: nat): Option<seq<byte>>
    requires k < 8
  {
    if k == 0 then (if info.emptyStream.None? then None else Some(BitVector.Pack(info.emptyStream.value)))
    else if k == 1 then (if info.emptyFile.None? then None else Some(BitVector.Pack(info.emptyFile.value)))
    else if k == 2 then (if info.anti.None? then None else Some(BitVector.Pack(info.anti.value)))
    else if k == 3 then (if info.names.None? then None else Some([0] + NamesBytes(info.names.value)))
    else if k == 4 then (if info.creationTime.None? then None else Some(TimesBytes(info.creationTime.value)))
    else if k == 5 then (if info.lastAccessTime.None? then None else Some(TimesBytes(info.lastAccessTime.value)))
    else if k == 6 then (if info.lastWriteTime.None? then None else Some(TimesBytes(info.lastWriteTime.value)))
    else (if info.attributes.None? then None else Some(AttributesBytes(info.attributes.value)))
  }

  /** Columns the writer can lay out: what the reader produces, with the
      kEmptyFile and kAnti vectors covering exactly the files without a data
      stream, and every payload short enough for its size field. */
  predicate Writable(info: FilesInfo)
  {
    Valid(info)
    && (info.emptyFile.Some? ==> |info.emptyFile.value| == NumEmptyStreams(info))
    && (info.anti.Some? ==> |info.anti.value| == NumEmptyStreams(info))
    && forall k | 0 <= k < 8 :: Payload(info, k).Some? ==> |Payload(info, k).value| < 0x1_0000_0000_0000_0000
  }

  /** The record of the `k`-th kind, or nothing when that column is absent. */
  function Part(info: FilesInfo, k: nat): seq<byte>
    requires Writable(info) && k < 8
  {
    var p := Payload(info, k);
    if p.None? then [] else Records.RecordBytes(Records.Record(KINDS[k], p.value))
  }

  function Parts(info: FilesInfo, k: nat): seq<byte>
    requires Writable(info) && k <= 8
    decreases 8 - k
  {
    if k == 8 then [] else Part(info, k) + Parts(info, k + 1)
  }

  /** The section after its 0x05 tag: the number of files, the present
      columns in kind order, END. */
  function Serialized(info: FilesInfo): seq<byte>
    requires Writable(info)
  {
    VarInt.Encode(info.numFiles) + (Parts(info, 0) + [Property.END])
  }

  // ---------------------------------------------------------------------------
  // Round trip

  /** The columns of `info` before the `k`-th kind, the others not read yet. */
  function Upto(info: FilesInfo, k: nat): FilesInfo
  {
    FilesInfo(info.numFiles,
      if k > 0 then info.emptyStream else None,
      if k > 1 then info.emptyFile else None,
      if k > 2 then info.anti else None,
      if k > 3 then info.names else None,
      if k > 4 then info.creationTime else None,
      if k > 5 then info.lastAccessTime else None,
      if k > 6 then info.lastWriteTime else None,
      if k > 7 then info.attributes else None)
  }

  lemma BitsColumn(bs: seq<bool>)
    ensures Whole(BitVector.Read(BitVector.Pack(bs), |bs|, false)) == Ok(bs)
  {
    BitVector.UnpackPack(bs, []);
    assert BitVector.Pack(bs) + [] == BitVector.Pack(bs);
  }

  lemma NamesHead(names: seq<string>, rest: seq<byte>, acc: seq<string>, n: nat)
    requires names != [] && Utf16.Storable(names[0]) && n == |acc| + |names|
    requires Names(NamesBytes(names[1..]) + rest, n, acc + [names[0]]) == Ok((acc + [names[0]] + names[1..], rest))
    ensures Names(NamesBytes(names) + rest, n, acc) == Ok((acc + names, rest))
  {
    var tail := NamesBytes(names[1..]) + rest;
    AppendAssoc(Utf16.NameBytes(names[0]), NamesBytes(names[1..]), rest);
    assert NamesBytes(names) + rest == Utf16.NameBytes(names[0]) + tail;
    Utf16.NameRoundTrip(names[0], tail);
    assert Names(NamesBytes(names) + rest, n, acc) == Names(tail, n, acc + [names[0]]);
    Io.AppendHead(acc, names);
  }

  lemma {:induction false} NamesRoundTrip(names: seq<string>, rest: seq<byte>, acc: seq<string>)
    requires AllStorable(names)
    ensures Names(NamesBytes(names) + rest, |acc| + |names|, acc) == Ok((acc + names, rest))
    decreases |names|
  {
    if names == [] {
      assert NamesBytes(names) + rest == rest;
      assert acc + names == acc;
    } else {
      NamesRoundTrip(names[1..], rest, acc + [names[0]]);
      NamesHead(names, rest, acc, |acc| + |names|);
    }
  }

  lemma NamesColumn(names: seq<string>)
    requires AllStorable(names)
    ensures Whole(NamesBlock([0] + NamesBytes(names), |names|)) == Ok(names)
  {
    TakeByteCons(0, NamesBytes(names));
    NamesRoundTrip(names, [], []);
    assert NamesBytes(names) + [] == NamesBytes(names);
    assert [] + names == names;
  }

  lemma StampsHead(ts: Times, rest: seq<byte>, acc: Times)
    requires ts != []
    requires Stamps(StampBytes(ts[1..]) + rest, DefinedStamps(ts[1..]), acc + [ts[0]]) == Ok((acc + [ts[0]] + ts[1..], rest))
    ensures Stamps(StampBytes(ts) + rest, DefinedStamps(ts), acc) == Ok((acc + ts, rest))
  {
    var tail := StampBytes(ts[1..]) + rest;
    AppendAssoc(StampOf(ts[0]), StampBytes(ts[1..]), rest);
    assert DefinedStamps(ts)[1..] == DefinedStamps(ts[1..]);
    if ts[0].Some? {
      Io.RealUInt64RoundTrip(ts[0].value, tail);
    } else {
      assert StampBytes(ts) + rest == tail;
    }
    Io.AppendHead(acc, ts);
  }

  lemma {:induction false} StampsRoundTrip(ts: Times, rest: seq<byte>, acc: Times)
    ensures Stamps(StampBytes(ts) + rest, DefinedStamps(ts), acc) == Ok((acc + ts, rest))
    decreases |ts|
  {
    if ts == [] {
      assert StampBytes(ts) + rest == rest;
      assert acc + ts == acc;
    } else {
      StampsRoundTrip(ts[1..], rest, acc + [ts[0]]);
      StampsHead(ts, rest, acc);
    }
  }

  lemma TimesColumn(ts: Times)
    ensures Whole(TimesBlock(TimesBytes(ts), |ts|)) == Ok(ts)
  {
    var d := DefinedStamps(ts);
    BitVector.ReadEncoded(d, true, [0] + StampBytes(ts));
    TakeByteCons(0, StampBytes(ts));
    StampsRoundTrip(ts, [], []);
    assert StampBytes(ts) + [] == StampBytes(ts);
    assert [] + ts == ts;
  }

  lemma AttributesColumn(attrs: seq<Option<uint32>>)
    ensures Whole(AttributesBlock(AttributesBytes(attrs), |attrs|)) == Ok(attrs)
  {
    var d := Io.DefinedOf(attrs);
    BitVector.ReadEncoded(d, true, [0] + Io.CrcBytes(attrs));
    TakeByteCons(0, Io.CrcBytes(attrs));
    Io.CrcsRoundTrip(attrs, [], []);
    assert Io.CrcBytes(attrs) + [] == Io.CrcBytes(attrs);
    assert [] + attrs == attrs;
  }

  // Each column written alone reads back into its own field.

  lemma ApplyEmptyStream(u: FilesInfo, bs: seq<bool>)
    requires |bs| == u.numFiles as nat && |BitVector.Pack(bs)| < 0x1_0000_0000_0000_0000
    ensures Apply(u, Records.Record(Property.EMPTY_STREAM, BitVector.Pack(bs))) == Ok(u.(emptyStream := Some(bs)))
  {
    BitsColumn(bs);
  }

  lemma ApplyEmptyFile(u: FilesInfo, bs: seq<bool>)
    requires |bs| == NumEmptyStreams(u) && |BitVector.Pack(bs)| < 0x1_0000_0000_0000_0000
    ensures Apply(u, Records.Record(Property.EMPTY_FILE, BitVector.Pack(bs))) == Ok(u.(emptyFile := Some(bs)))
  {
    BitsColumn(bs);
  }

  lemma ApplyAnti(u: FilesInfo, bs: seq<bool>)
    requires |bs| == NumEmptyStreams(u) && |BitVector.Pack(bs)| < 0x1_0000_0000_0000_0000
    ensures Apply(u, Records.Record(Property.ANTI, BitVector.Pack(bs))) == Ok(u.(anti := Some(bs)))
  {
    BitsColumn(bs);
  }

  lemma ApplyNames(u: FilesInfo, names: seq<string>)
    requires |names| == u.numFiles as nat && AllStorable(names)
    requires |[0] + NamesBytes(names)| < 0x1_0000_0000_0000_0000
    ensures Apply(u, Records.Record(Property.NAME, [0] + NamesBytes(names))) == Ok(u.(names := Some(names)))
  {
    NamesColumn(names);
  }

  lemma ApplyCreationTime(u: FilesInfo, ts: Times)
    requires |ts| == u.numFiles as nat && |TimesBytes(ts)| < 0x1_0000_0000_0000_0000
    ensures Apply(u, Records.Record(Property.CREATION_TIME, TimesBytes(ts))) == Ok(u.(creationTime := Some(ts)))
  {
    TimesColumn(ts);
  }

  lemma ApplyLastAccessTime(u: FilesInfo, ts: Times)
    requires |ts| == u.numFiles as nat && |TimesBytes(ts)| < 0x1_0000_0000_0000_0000
    ensures Apply(u, Records.Record(Property.LAST_ACCESS_TIME, TimesBytes(ts))) == Ok(u.(lastAccessTime := Some(ts)))
  {
    TimesColumn(ts);
  }

  lemma ApplyLastWriteTime(u: FilesInfo, ts: Times)
    requires |ts| == u.numFiles as nat && |TimesBytes(ts)| < 0x1_0000_0000_0000_0000
    ensures Apply(u, Records.Record(Property.LAST_WRITE_TIME, TimesBytes(ts))) == Ok(u.(lastWriteTime := Some(ts)))
  {
    TimesColumn(ts);
  }

  lemma ApplyAttributes(u: FilesInfo, attrs: seq<Option<uint32>>)
    requires |attrs| == u.numFiles as nat && |AttributesBytes(attrs)| < 0x1_0000_0000_0000_0000
    ensures Apply(u, Records.Record(Property.ATTRIBUTES, AttributesBytes(attrs))) == Ok(u.(attributes := Some(attrs)))
  {
    AttributesColumn(attrs);
  }

  lemma {:induction false} DefinedStampsAt(ts: Times)
    ensures forall i | 0 <= i < |ts| :: DefinedStamps(ts)[i] == ts[i].Some?
    decreases |ts|
  {
    if ts != [] {
      DefinedStampsAt(ts[1..]);
    }
  }

  lemma DefinedStampsAll(ts: Times)
    requires forall i | 0 <= i < |ts| :: ts[i].Some?
    ensures DefinedStamps(ts) == BitVector.AllTrue(|ts|)
  {
    DefinedStampsAt(ts);
  }

  /** The all-defined form of a timestamp payload: 0x01 in place of the
      defined vector, the external flag, then every time. A column with every
      time defined reads back from it. */
  lemma TimesAllDefined(ts: Times)
    requires forall i | 0 <= i < |ts| :: ts[i].Some?
    ensures Whole(TimesBlock([0x01, 0x00] + StampBytes(ts), |ts|)) == Ok(ts)
  {
    AllDefinedPrefix(|ts|, StampBytes(ts));
    StampsAllDefined(ts);
    TimesBlockOf([0x01, 0x00] + StampBytes(ts), |ts|, BitVector.AllTrue(|ts|), [0x00] + StampBytes(ts), StampBytes(ts), ts);
  }

  /** The all-defined byte and a zero external flag ahead of a column body. */
  lemma AllDefinedPrefix(n: nat, body: seq<byte>)
    ensures BitVector.Read([0x01, 0x00] + body, n, true) == Ok((BitVector.AllTrue(n), [0x00] + body))
    ensures TakeByte([0x00] + body) == Ok((0x00, body))
  {
    assert [0x01, 0x00] + body == [0x01] + ([0x00] + body);
    BitVector.ReadAllDefined(n, [0x00] + body);
    TakeByteCons(0x00, body);
  }

  lemma StampsAllDefined(ts: Times)
    requires forall i | 0 <= i < |ts| :: ts[i].Some?
    ensures Stamps(StampBytes(ts), BitVector.AllTrue(|ts|), []) == Ok((ts, []))
  {
    DefinedStampsAll(ts);
    StampsRoundTrip(ts, [], []);
    assert StampBytes(ts) + [] == StampBytes(ts);
    assert [] + ts == ts;
  }

  lemma TimesBlockOf(s: seq<byte>, n: nat, defined: seq<bool>, t: seq<byte>, body: seq<byte>, ts: Times)
    requires BitVector.Read(s, n, true) == Ok((defined, t))
    requires TakeByte(t) == Ok((0x00, body))
    requires Stamps(body, defined, []) == Ok((ts, []))
    ensures Whole(TimesBlock(s, n)) == Ok(ts)
  {
  }

  /** The same for the attributes column. */
  lemma AttributesAllDefined(attrs: seq<Option<uint32>>)
    requires forall i | 0 <= i < |attrs| :: attrs[i].Some?
    ensures Whole(AttributesBlock([0x01, 0x00] + Io.CrcBytes(attrs), |attrs|)) == Ok(attrs)
  {
    AllDefinedPrefix(|attrs|, Io.CrcBytes(attrs));
    CrcsAllDefined(attrs);
    AttributesBlockOf([0x01, 0x00] + Io.CrcBytes(attrs), |attrs|, BitVector.AllTrue(|attrs|),
                      [0x00] + Io.CrcBytes(attrs), Io.CrcBytes(attrs), attrs);
  }

  lemma CrcsAllDefined(attrs: seq<Option<uint32>>)
    requires forall i | 0 <= i < |attrs| :: attrs[i].Some?
    ensures Io.Crcs(Io.CrcBytes(attrs), BitVector.AllTrue(|attrs|), []) == Ok((attrs, []))
  {
    Io.DefinedOfAll(attrs);
    Io.CrcsRoundTrip(attrs, [], []);
    assert Io.CrcBytes(attrs) + [] == Io.CrcBytes(attrs);
    assert [] + attrs == attrs;
  }

  lemma AttributesBlockOf(s: seq<byte>, n: nat, defined: seq<bool>, t: seq<byte>, body: seq<byte>,
                          attrs: seq<Option<uint32>>)
    requires BitVector.Read(s, n, true) == Ok((defined, t))
    requires TakeByte(t) == Ok((0x00, body))
    requires Io.Crcs(body, defined, []) == Ok((attrs, []))
    ensures Whole(AttributesBlock(s, n)) == Ok(attrs)
  {
  }

  /** A last-write column in the all-defined form read into its field. */
  lemma ApplyLastWriteTimeAllDefined(u: FilesInfo, ts: Times)
    requires |ts| == u.numFiles as nat && forall i | 0 <= i < |ts| :: ts[i].Some?
    requires |[0x01, 0x00] + StampBytes(ts)| < 0x1_0000_0000_0000_0000
    ensures Apply(u, Records.Record(Property.LAST_WRITE_TIME, [0x01, 0x00] + StampBytes(ts)))
      == Ok(u.(lastWriteTime := Some(ts)))
  {
    TimesAllDefined(ts);
  }

  /** An attributes column in the all-defined form read into its field. */
  lemma ApplyAttributesAllDefined(u: FilesInfo, attrs: seq<Option<uint32>>)
    requires |attrs| == u.numFiles as nat && forall i | 0 <= i < |attrs| :: attrs[i].Some?
    requires |[0x01, 0x00] + Io.CrcBytes(attrs)| < 0x1_0000_0000_0000_0000
    ensures Apply(u, Records.Record(Property.ATTRIBUTES, [0x01, 0x00] + Io.CrcBytes(attrs)))
      == Ok(u.(attributes := Some(attrs)))
  {
    AttributesAllDefined(attrs);
  }

  /** The record of the `k`-th kind turns the columns before it into the
      columns up to it. */
  lemma ColumnStep(info: FilesInfo, k: nat)
    requires Writable(info) && k < 8 && Payload(info, k).Some?
    ensures |Payload(info, k).value| < 0x1_0000_0000_0000_0000
    ensures Apply(Upto(info, k), Records.Record(KINDS[k], Payload(info, k).value)) == Ok(Upto(info, k + 1))
  {
    var u := Upto(info, k);
    if k == 0 {
      ApplyEmptyStream(u, info.emptyStream.value);
    } else if k == 1 {
      ApplyEmptyFile(u, info.emptyFile.value);
    } else if k == 2 {
      ApplyAnti(u, info.anti.value);
    } else if k == 3 {
      ApplyNames(u, info.names.value);
    } else if k == 4 {
      ApplyCreationTime(u, info.creationTime.value);
    } else if k == 5 {
      ApplyLastAccessTime(u, info.lastAccessTime.value);
    } else if k == 6 {
      ApplyLastWriteTime(u, info.lastWriteTime.value);
    } else {
      ApplyAttributes(u, info.attributes.value);
    }
  }

  /** An absent column leaves the columns read so far as they are. */
  lemma UptoAbsent(info: FilesInfo, k: nat)
    requires k < 8 && Payload(info, k).None?
    ensures Upto(info, k) == Upto(info, k + 1)
  {
  }

  lemma PartsSplit(info: FilesInfo, k: nat, rest: seq<byte>)
    requires Writable(info) && k < 8
    ensures Parts(info, k) + rest == Part(info, k) + (Parts(info, k + 1) + rest)
  {
  }

  /** A record the reader applies, then the remaining records. */
  lemma RecordRead(r: Records.Record, tail: seq<byte>, before: FilesInfo, after: FilesInfo,
                   result: Result<(FilesInfo, seq<byte>)>)
    requires r.kind != Property.END && Apply(before, r) == Ok(after)
    requires Properties(tail, after) == result
    ensures Properties(Records.RecordBytes(r) + tail, before) == result
  {
    Records.NextRecord(r, tail);
  }

  lemma PartStep(info: FilesInfo, k: nat, s: seq<byte>, rest: seq<byte>)
    requires Writable(info) && k < 8
    requires Properties(Parts(info, k + 1) + s, Upto(info, k + 1)) == Ok((info, rest))
    ensures Properties(Parts(info, k) + s, Upto(info, k)) == Ok((info, rest))
  {
    PartsSplit(info, k, s);
    var tail := Parts(info, k + 1) + s;
    if Payload(info, k).Some? {
      ColumnStep(info, k);
      var r := Records.Record(KINDS[k], Payload(info, k).value);
      assert Part(info, k) == Records.RecordBytes(r);
      RecordRead(r, tail, Upto(info, k), Upto(info, k + 1), Ok((info, rest)));
    } else {
      assert Part(info, k) + tail == tail;
      UptoAbsent(info, k);
    }
  }

  lemma {:induction false} PartsRoundTrip(info: FilesInfo, k: nat, rest: seq<byte>)
    requires Writable(info) && k <= 8
    ensures Properties(Parts(info, k) + ([Property.END] + rest), Upto(info, k)) == Ok((info, rest))
    decreases 8 - k
  {
    if k == 8 {
      Records.NextEnd(rest);
      assert Parts(info, k) + ([Property.END] + rest) == [Property.END] + rest;
      assert Upto(info, k) == info;
    } else {
      PartsRoundTrip(info, k + 1, rest);
      PartStep(info, k, [Property.END] + rest, rest);
    }
  }

  /** Every writable section reads back as written, and the bytes after its
      END are left unread. */
  lemma ParseSerialized(info: FilesInfo, rest: seq<byte>)
    requires Writable(info)
    ensures Parse(Serialized(info) + rest) == Ok((info, rest))
  {
    var tail := Parts(info, 0) + ([Property.END] + rest);
    AppendAssoc(VarInt.Encode(info.numFiles), Parts(info, 0) + [Property.END], rest);
    AppendAssoc(Parts(info, 0), [Property.END], rest);
    VarInt.DecodeEncode(info.numFiles, tail);
    PartsRoundTrip(info, 0, rest);
    assert Upto(info, 0) == Empty(info.numFiles);
  }
}
