/** The unpack-info section (`UnpackInfo`): the folders, the size of every coder
    output of every folder, and optional CRCs of the folders' decoded streams.
    The section's 0x07 tag is read by the enclosing streams-info reader. */
module UnpackInfo {
  import opened Bytes
  import opened BytesIO
  import VarInt
  import Io
  import Property
  import Folders

  /** `folders`, `unpacksizes` (one list per folder, one size per coder output)
      and the kCRC digests of the folders' decoded streams. */
  datatype UnpackInfo = UnpackInfo(
    folders: seq<Folders.Folder>,
    unpackSizes: seq<seq<uint64>>,
    digests: Option<seq<Option<uint32>>>)

  predicate AllWellFormed(folders: seq<Folders.Folder>)
  {
    forall i | 0 <= i < |folders| :: Folders.WellFormed(folders[i])
  }

  /** One size list per folder, as long as the folder has outputs. */
  predicate SizesFit(folders: seq<Folders.Folder>, sizes: seq<seq<uint64>>)
  {
    |sizes| == |folders|
    && forall i | 0 <= i < |folders| :: |sizes[i]| == Folders.TotalOut(folders[i].coders)
  }

  /** What the reader produces and the writer accepts. */
  predicate Valid(u: UnpackInfo)
  {
    |u.folders| < 0x1_0000_0000_0000_0000
    && AllWellFormed(u.folders)
    && SizesFit(u.folders, u.unpackSizes)
    && (u.digests.Some? ==> |u.digests.value| == |u.folders|)
  }

  /** The decoded size of folder `i`: the size of its main output. */
  function FolderSize(u: UnpackInfo, i: nat): (r: uint64)
    requires Valid(u) && i < |u.folders|
    ensures r in u.unpackSizes[i]
    ensures forall j | 0 <= j < Folders.TotalOut(u.folders[i].coders)
                       && j !in Folders.OutIndices(u.folders[i].bindPairs) :: r == u.unpackSizes[i][j]
  {
    Folders.MainOutputUnique(u.folders[i]);
    u.unpackSizes[i][Folders.MainOutput(u.folders[i])]
  }

  /** The decoded size of every folder, in folder order. */
  function FolderSizes(u: UnpackInfo): (r: seq<uint64>)
    requires Valid(u)
    ensures |r| == |u.folders|
    ensures forall i, j | 0 <= i < |r| && 0 <= j < Folders.TotalOut(u.folders[i].coders)
                          && j !in Folders.OutIndices(u.folders[i].bindPairs) :: r[i] == u.unpackSizes[i][j]
  {
    seq(|u.folders|, i requires 0 <= i < |u.folders| && Valid(u) => FolderSize(u, i))
  }

  /** Which folders carry a CRC of their decoded stream. */
  function FolderCrcDefined(u: UnpackInfo): (r: seq<bool>)
    requires Valid(u)
    ensures |r| == |u.folders|
  {
    if u.digests.None? then seq(|u.folders|, i => false)
    else seq(|u.folders|, i requires 0 <= i < |u.folders| && Valid(u) => u.digests.value[i].Some?)
  }

  // ---------------------------------------------------------------------------
  // Reading

  /** Folders appended to `acc` until there are `n`. */
  function FolderList(s: seq<byte>, n: nat, acc: seq<Folders.Folder>)
    : (r: Result<(seq<Folders.Folder>, seq<byte>)>)
    requires |acc| <= n
    ensures r.Ok? ==> |r.value.0| == n && |r.value.1| <= |s|
    decreases n - |acc|
  {
    if |acc| == n then Ok((acc, s))
    else
      var f :- Folders.Parse(s);
      FolderList(f.1, n, acc + [f.0])
  }

  lemma FolderListStep(s: seq<byte>, n: nat, acc: seq<Folders.Folder>)
    requires |acc| < n
    ensures Folders.Parse(s).Err? ==> FolderList(s, n, acc) == Err(Folders.Parse(s).error)
    ensures Folders.Parse(s).Ok? ==>
      FolderList(s, n, acc) == FolderList(Folders.Parse(s).value.1, n, acc + [Folders.Parse(s).value.0])
  {
  }

  /** Every folder read is one the folder reader accepts. */
  lemma {:induction false} FolderListWellFormed(s: seq<byte>, n: nat, acc: seq<Folders.Folder>)
    requires |acc| <= n && AllWellFormed(acc) && FolderList(s, n, acc).Ok?
    ensures AllWellFormed(FolderList(s, n, acc).value.0)
    decreases n - |acc|
  {
    if |acc| < n {
      FolderListStep(s, n, acc);
      var f := Folders.Parse(s).value;
      Folders.ParseWellFormed(s);
      WellFormedSnoc(acc, f.0);
      FolderListWellFormed(f.1, n, acc + [f.0]);
    }
  }

  lemma WellFormedSnoc(acc: seq<Folders.Folder>, f: Folders.Folder)
    requires AllWellFormed(acc) && Folders.WellFormed(f)
    ensures AllWellFormed(acc + [f])
  {
  }

  /** The output sizes of each folder in turn, appended to `acc`. */
  function Sizes(s: seq<byte>, folders: seq<Folders.Folder>, acc: seq<seq<uint64>>)
    : (r: Result<(seq<seq<uint64>>, seq<byte>)>)
    ensures r.Ok? ==> |r.value.0| == |acc| + |folders| && |r.value.1| <= |s|
    decreases |folders|
  {
    if folders == [] then Ok((acc, s))
    else
      var sizes :- Io.UInt64s(s, Folders.TotalOut(folders[0].coders), []);
      Sizes(sizes.1, folders[1..], acc + [sizes.0])
  }

  lemma SizesStep(s: seq<byte>, folders: seq<Folders.Folder>, acc: seq<seq<uint64>>)
    requires folders != []
    ensures Io.UInt64s(s, Folders.TotalOut(folders[0].coders), []).Err? ==>
      Sizes(s, folders, acc) == Err(Io.UInt64s(s, Folders.TotalOut(folders[0].coders), []).error)
    ensures Io.UInt64s(s, Folders.TotalOut(folders[0].coders), []).Ok? ==>
      Sizes(s, folders, acc) == Sizes(Io.UInt64s(s, Folders.TotalOut(folders[0].coders), []).value.1,
        folders[1..], acc + [Io.UInt64s(s, Folders.TotalOut(folders[0].coders), []).value.0])
  {
  }

  /** The size lists read extend `acc`, one list per folder, as long as the
      folder has outputs. */
  lemma {:induction false} SizesShape(s: seq<byte>, folders: seq<Folders.Folder>, acc: seq<seq<uint64>>)
    requires Sizes(s, folders, acc).Ok?
    ensures acc <= Sizes(s, folders, acc).value.0
    ensures SizesFit(folders, Sizes(s, folders, acc).value.0[|acc|..])
    decreases |folders|
  {
    if folders != [] {
      var first := Io.UInt64s(s, Folders.TotalOut(folders[0].coders), []).value;
      SizesShape(first.1, folders[1..], acc + [first.0]);
      ShapeStep(acc, first.0, folders, Sizes(s, folders, acc).value.0);
    }
  }

  lemma ShapeStep(acc: seq<seq<uint64>>, x: seq<uint64>, folders: seq<Folders.Folder>, sizes: seq<seq<uint64>>)
    requires folders != [] && |x| == Folders.TotalOut(folders[0].coders)
    requires acc + [x] <= sizes && SizesFit(folders[1..], sizes[|acc| + 1..])
    ensures acc <= sizes && SizesFit(folders, sizes[|acc|..])
  {
    assert sizes[|acc|..] == [x] + sizes[|acc| + 1..];
  }

  /** `UnpackInfo.retrieve`: kFolder, the folder count, the external flag (only
      inline folders are supported), the folders, then the sizes, digests and
      END. */
  function Parse(s: seq<byte>): (r: Result<(UnpackInfo, seq<byte>)>)
    ensures r.Ok? ==> Valid(r.value.0) && |r.value.1| < |s|
  {
    var t :- Property.Expect(s, Property.FOLDER);
    var n :- VarInt.Decode(t);
    var external :- TakeByte(n.1);
    if external.0 != 0 then Err(Unsupported)
    else
      var folders :- FolderList(external.1, n.0, []);
      FolderListWellFormed(external.1, n.0, []);
      AfterFolders(folders.0, folders.1)
  }

  /** What follows the folders: kCodersUnpackSize, the sizes, digests and END. */
  function AfterFolders(folders: seq<Folders.Folder>, s: seq<byte>): (r: Result<(UnpackInfo, seq<byte>)>)
    requires |folders| < 0x1_0000_0000_0000_0000 && AllWellFormed(folders)
    ensures r.Ok? ==> Valid(r.value.0) && |r.value.1| < |s|
  {
    var t :- Property.Expect(s, Property.CODERS_UNPACK_SIZE);
    var sizes :- Sizes(t, folders, []);
    SizesShape(t, folders, []);
    assert sizes.0[0..] == sizes.0;
    var digests :- Io.DigestsEnd(sizes.1, |folders|);
    Ok((UnpackInfo(folders, sizes.0, digests.0), digests.1))
  }

  // ---------------------------------------------------------------------------
  // Reading from a reader

  method ReadFolders(f: ByteReader, n: nat) returns (res: Result<seq<Folders.Folder>>)
    modifies f
    ensures f.Follows(res, FolderList(old(f.rest), n, []))
  {
    var folders: seq<Folders.Folder> := [];
    while |folders| < n
      invariant |folders| <= n
      invariant FolderList(f.rest, n, folders) == FolderList(old(f.rest), n, [])
      decreases n - |folders|
    {
      FolderListStep(f.rest, n, folders);
      var folder :- Folders.Retrieve(f);
      folders := folders + [folder];
    }
    return Ok(folders);
  }

  method ReadSizes(f: ByteReader, folders: seq<Folders.Folder>) returns (res: Result<seq<seq<uint64>>>)
    modifies f
    ensures f.Follows(res, Sizes(old(f.rest), folders, []))
  {
    var sizes: seq<seq<uint64>> := [];
    var i := 0;
    while i < |folders|
      invariant i <= |folders|
      invariant Sizes(f.rest, folders[i..], sizes) == Sizes(old(f.rest), folders, [])
    {
      assert folders[i..][1..] == folders[i + 1..];
      SizesStep(f.rest, folders[i..], sizes);
      var next :- Io.ReadUInt64s(f, Folders.TotalOut(folders[i].coders));
      sizes := sizes + [next];
      i := i + 1;
    }
    return Ok(sizes);
  }

  /** `UnpackInfo.retrieve` on a reader. */
  method Retrieve(f: ByteReader) returns (res: Result<UnpackInfo>)
    modifies f
    ensures f.Follows(res, Parse(old(f.rest)))
  {
    var tag :- f.ReadByte();
    if tag != Property.FOLDER {
      return Err(UnexpectedProperty(tag));
    }
    var n :- Io.ReadUInt64(f);
    var external :- f.ReadByte();
    if external != 0 {
      return Err(Unsupported);
    }
    ghost var before := f.rest;
    var folders :- ReadFolders(f, n);
    FolderListWellFormed(before, n, []);
    res := ReadAfterFolders(f, folders);
  }

  method ReadAfterFolders(f: ByteReader, folders: seq<Folders.Folder>) returns (res: Result<UnpackInfo>)
    requires |folders| < 0x1_0000_0000_0000_0000 && AllWellFormed(folders)
    modifies f
    ensures f.Follows(res, AfterFolders(folders, old(f.rest)))
  {
    var tag :- f.ReadByte();
    if tag != Property.CODERS_UNPACK_SIZE {
      return Err(UnexpectedProperty(tag));
    }
    var sizes :- ReadSizes(f, folders);
    var digests :- Io.ReadDigestsEnd(f, |folders|);
    return Ok(UnpackInfo(folders, sizes, digests));
  }

  // ---------------------------------------------------------------------------
  // Writing, the layout the reader expects

  function FoldersBytes(folders: seq<Folders.Folder>): seq<byte>
    requires AllWellFormed(folders)
  {
    if folders == [] then [] else Folders.Serialized(folders[0]) + FoldersBytes(folders[1..])
  }

  function SizesBytes(sizes: seq<seq<uint64>>): seq<byte>
  {
    if sizes == [] then [] else Io.UInt64sBytes(sizes[0]) + SizesBytes(sizes[1..])
  }

  /** The section after its 0x07 tag: kFolder, the count, the external flag 0,
      the folders, kCodersUnpackSize and the sizes, the kCRC block, then END. */
  function Serialized(u: UnpackInfo): seq<byte>
    requires Valid(u)
  {
    [Property.FOLDER] + (VarInt.Encode(|u.folders|) + ([0] + (FoldersBytes(u.folders) + AfterFoldersBytes(u))))
  }

  function AfterFoldersBytes(u: UnpackInfo): seq<byte>
  {
    [Property.CODERS_UNPACK_SIZE] + (SizesBytes(u.unpackSizes) + (Io.DigestsPart(u.digests) + [Property.END]))
  }

  // ---------------------------------------------------------------------------
  // Round trip

  lemma {:induction false} FolderListRoundTrip(folders: seq<Folders.Folder>, rest: seq<byte>, n: nat, acc: seq<Folders.Folder>)
    requires AllWellFormed(folders) && n == |acc| + |folders|
    ensures FolderList(FoldersBytes(folders) + rest, n, acc) == Ok((acc + folders, rest))
    decreases |folders|
  {
    if folders == [] {
      assert acc + folders == acc;
      assert FoldersBytes(folders) + rest == rest;
    } else {
      FolderListRoundTrip(folders[1..], rest, n, acc + [folders[0]]);
      FolderListHead(folders, rest, n, acc);
    }
  }

  lemma FolderListHead(folders: seq<Folders.Folder>, rest: seq<byte>, n: nat, acc: seq<Folders.Folder>)
    requires folders != [] && AllWellFormed(folders) && n == |acc| + |folders|
    requires FolderList(FoldersBytes(folders[1..]) + rest, n, acc + [folders[0]])
      == Ok((acc + [folders[0]] + folders[1..], rest))
    ensures FolderList(FoldersBytes(folders) + rest, n, acc) == Ok((acc + folders, rest))
  {
    var s := FoldersBytes(folders) + rest;
    AppendAssoc(Folders.Serialized(folders[0]), FoldersBytes(folders[1..]), rest);
    assert s == Folders.Serialized(folders[0]) + (FoldersBytes(folders[1..]) + rest);
    Folders.ParseSerialized(folders[0], FoldersBytes(folders[1..]) + rest);
    FolderListStep(s, n, acc);
    Io.AppendHead(acc, folders);
  }

  lemma {:induction false} SizesRoundTrip(folders: seq<Folders.Folder>, sizes: seq<seq<uint64>>, rest: seq<byte>, acc: seq<seq<uint64>>)
    requires SizesFit(folders, sizes)
    ensures Sizes(SizesBytes(sizes) + rest, folders, acc) == Ok((acc + sizes, rest))
    decreases |folders|
  {
    if folders == [] {
      assert acc + sizes == acc;
      assert SizesBytes(sizes) + rest == rest;
    } else {
      assert SizesFit(folders[1..], sizes[1..]);
      SizesRoundTrip(folders[1..], sizes[1..], rest, acc + [sizes[0]]);
      SizesHead(folders, sizes, rest, acc);
    }
  }

  lemma SizesHead(folders: seq<Folders.Folder>, sizes: seq<seq<uint64>>, rest: seq<byte>, acc: seq<seq<uint64>>)
    requires folders != [] && SizesFit(folders, sizes)
    requires Sizes(SizesBytes(sizes[1..]) + rest, folders[1..], acc + [sizes[0]]) == Ok((acc + [sizes[0]] + sizes[1..], rest))
    ensures Sizes(SizesBytes(sizes) + rest, folders, acc) == Ok((acc + sizes, rest))
  {
    var tail := SizesBytes(sizes[1..]) + rest;
    var s := SizesBytes(sizes) + rest;
    AppendAssoc(Io.UInt64sBytes(sizes[0]), SizesBytes(sizes[1..]), rest);
    assert s == Io.UInt64sBytes(sizes[0]) + tail;
    Io.UInt64sRoundTrip(sizes[0], tail, []);
    assert [] + sizes[0] == sizes[0];
    assert |sizes[0]| == Folders.TotalOut(folders[0].coders);
    SizesStep(s, folders, acc);
    Io.AppendHead(acc, sizes);
  }

  lemma AfterFoldersRoundTrip(u: UnpackInfo, rest: seq<byte>)
    requires Valid(u)
    ensures AfterFolders(u.folders, AfterFoldersBytes(u) + rest) == Ok((u, rest))
  {
    var t2 := Io.DigestsPart(u.digests) + ([Property.END] + rest);
    var t1 := SizesBytes(u.unpackSizes) + t2;
    var d := Io.DigestsPart(u.digests) + [Property.END];
    AppendAssoc([Property.CODERS_UNPACK_SIZE], SizesBytes(u.unpackSizes) + d, rest);
    AppendAssoc(SizesBytes(u.unpackSizes), d, rest);
    AppendAssoc(Io.DigestsPart(u.digests), [Property.END], rest);
    assert AfterFoldersBytes(u) + rest == [Property.CODERS_UNPACK_SIZE] + t1;
    Property.ExpectCons(Property.CODERS_UNPACK_SIZE, t1);
    SizesRoundTrip(u.folders, u.unpackSizes, t2, []);
    assert [] + u.unpackSizes == u.unpackSizes;
    Io.DigestsEndRoundTrip(u.digests, |u.folders|, rest);
  }

  /** Every section the reader accepts is read back from its serialization, and
      the bytes after it are left unread. */
  lemma ParseSerialized(u: UnpackInfo, rest: seq<byte>)
    requires Valid(u)
    ensures Parse(Serialized(u) + rest) == Ok((u, rest))
  {
    var t3 := FoldersBytes(u.folders) + (AfterFoldersBytes(u) + rest);
    var t2 := [0] + t3;
    var t1 := VarInt.Encode(|u.folders|) + t2;
    SerializedSplit(u, rest);
    Property.ExpectCons(Property.FOLDER, t1);
    VarInt.DecodeEncode(|u.folders|, t2);
    TakeByteCons(0, t3);
    FolderListRoundTrip(u.folders, AfterFoldersBytes(u) + rest, |u.folders|, []);
    assert [] + u.folders == u.folders;
    AfterFoldersRoundTrip(u, rest);
  }

  lemma SerializedSplit(u: UnpackInfo, rest: seq<byte>)
    requires Valid(u)
    ensures Serialized(u) + rest == [Property.FOLDER] + (VarInt.Encode(|u.folders|)
      + ([0] + (FoldersBytes(u.folders) + (AfterFoldersBytes(u) + rest))))
  {
    var d := FoldersBytes(u.folders) + AfterFoldersBytes(u);
    var c := [0] + d;
    var b := VarInt.Encode(|u.folders|) + c;
    AppendAssoc([Property.FOLDER], b, rest);
    AppendAssoc(VarInt.Encode(|u.folders|), c, rest);
    AppendAssoc([0], d, rest);
    AppendAssoc(FoldersBytes(u.folders), AfterFoldersBytes(u), rest);
  }
}
