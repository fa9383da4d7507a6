/** The streams, files and header sections of the codec's unit tests, and what
    the model reads from them. */
module HeaderVectors {
  import opened Bytes
  import opened BytesIO
  import VarInt
  import Io
  import Property
  import PackInfo
  import Folders
  import UnpackInfo
  import SubStreams
  import StreamsInfo
  import FilesInfo
  import Header
  import FilesVectors

  // ---------------------------------------------------------------------------
  // test_py7zr_mainstreams: the main streams of a one-folder solid archive

  /** One packed stream of 0x30 bytes at offset 0. */
  const MAIN_PACK: PackInfo.PackInfo := PackInfo.PackInfo(0, [0x30], None)

  /** LZMA (method id 03 01 01) with its five property bytes. */
  const LZMA_CODER: Folders.Coder := Folders.Coder([0x03, 0x01, 0x01], 1, 1, Some([0x5d, 0x00, 0x00, 0x00, 0x02]))

  const MAIN_FOLDER: Folders.Folder := Folders.Folder([LZMA_CODER], [], [0])

  /** The folder decodes to 0x42 bytes and carries no CRC of its own. */
  const MAIN_UNPACK: UnpackInfo.UnpackInfo := UnpackInfo.UnpackInfo([MAIN_FOLDER], [[0x42]], None)

  /** Two files of 0x21 bytes each in the folder, each with its CRC. */
  const MAIN_SUBSTREAMS: SubStreams.SubStreams :=
    SubStreams.SubStreams([2], [0x21, 0x21], Some([Some(0x08626a3e), Some(0x88b79ace)]))

  const MAIN_STREAMS: StreamsInfo.StreamsInfo :=
    StreamsInfo.StreamsInfo(Some(MAIN_PACK), Some(MAIN_UNPACK), Some(MAIN_SUBSTREAMS))

  const PACK_BYTES: seq<byte> := [0x00, 0x01, 0x09, 0x30, 0x00]

  /** The coder: flags 0x23 (a three-byte id, with properties), the id, then
      the property count and bytes. */
  const CODER_BYTES: seq<byte> := [0x23] + ([0x03, 0x01, 0x01] + ([0x05] + [0x5d, 0x00, 0x00, 0x00, 0x02]))

  const FOLDER_BYTES: seq<byte> := [0x01] + CODER_BYTES

  const UNPACK_BYTES: seq<byte> := [0x0b] + ([0x01] + ([0x00] + (FOLDER_BYTES + [0x0c, 0x42, 0x00])))

  const SUBSTREAMS_CRCS: seq<byte> := [0x3e, 0x6a, 0x62, 0x08, 0xce, 0x9a, 0xb7, 0x88]

  /** The substreams section, its digests in the all-defined form. */
  const SUBSTREAMS_BYTES: seq<byte> := [0x0d, 0x02, 0x09, 0x21] + ([0x0a, 0x01] + (SUBSTREAMS_CRCS + [0x00]))

  /** The section after its 0x04 tag. */
  const MAIN_BYTES: seq<byte> :=
    [0x06] + (PACK_BYTES + ([0x07] + (UNPACK_BYTES + ([0x08] + (SUBSTREAMS_BYTES + [0x00])))))

  lemma PackBytes()
    ensures PackInfo.Valid(MAIN_PACK)
    ensures StreamsInfo.PackPart(Some(MAIN_PACK)) == [0x06] + PACK_BYTES
  {
  }

  lemma MainFolderWellFormed()
    ensures Folders.WellFormed(MAIN_FOLDER)
    ensures Folders.MainOutput(MAIN_FOLDER) == 0
  {
    assert Folders.TotalIn(MAIN_FOLDER.coders) == 1;
    assert Folders.TotalOut(MAIN_FOLDER.coders) == 1;
    assert Folders.Missing([], 1) == [0];
  }

  lemma MainUnpackValid()
    ensures UnpackInfo.Valid(MAIN_UNPACK)
    ensures UnpackInfo.FolderSizes(MAIN_UNPACK) == [0x42]
    ensures UnpackInfo.FolderCrcDefined(MAIN_UNPACK) == [false]
  {
    MainFolderWellFormed();
    assert UnpackInfo.AllWellFormed(MAIN_UNPACK.folders);
  }

  lemma FolderBytes()
    ensures Folders.Serialized(MAIN_FOLDER) == FOLDER_BYTES
  {
    CoderBytes();
    assert VarInt.Encode(1) == [0x01];
    assert Folders.CodersBytes([LZMA_CODER]) == CODER_BYTES + [];
    assert Folders.BindPairsBytes([]) + Folders.PackedBytes([0]) == [];
  }

  lemma CoderBytes()
    ensures Folders.CoderBytes(LZMA_CODER) == CODER_BYTES
  {
    var props := [0x5d, 0x00, 0x00, 0x00, 0x02];
    assert Folders.Flags(LZMA_CODER) == 0x23;
    assert Folders.CountsBytes(LZMA_CODER) == [];
    assert VarInt.Encode(5) == [0x05];
    assert Folders.AttributesBytes(LZMA_CODER.props) == [0x05] + props;
    assert [] + ([0x05] + props) == [0x05] + props;
  }

  lemma UnpackBytes()
    ensures UnpackInfo.Valid(MAIN_UNPACK)
    ensures UnpackInfo.Serialized(MAIN_UNPACK) == UNPACK_BYTES
  {
    MainUnpackValid();
    FolderBytes();
    assert UnpackInfo.FoldersBytes(MAIN_UNPACK.folders) == FOLDER_BYTES;
    assert UnpackInfo.AfterFoldersBytes(MAIN_UNPACK) == [0x0c, 0x42, 0x00];
  }

  lemma SubStreamsFit()
    ensures UnpackInfo.Valid(MAIN_UNPACK)
    ensures SubStreams.Valid(MAIN_SUBSTREAMS, [0x42], [false])
    ensures StreamsInfo.Valid(MAIN_STREAMS)
  {
    MainUnpackValid();
    PackBytes();
    var sizes := MAIN_SUBSTREAMS.sizes;
    assert sizes[..2] == [0x21] + [0x21] && sizes[2..] == [];
    SubStreams.SumSnoc([0x21], 0x21);
    SubStreams.SumSnoc([], 0x21);
    assert [] + [0x21 as uint64] == [0x21];
    assert SubStreams.Partition([], [], []);
    assert SubStreams.Partition([2], [0x42], sizes);
  }

  /** The substream sizes: 0x21 is stored, the second size is what it leaves of
      the folder's 0x42 bytes. */
  lemma SubStreamSizes(rest: seq<byte>)
    ensures SubStreams.Valid(MAIN_SUBSTREAMS, [0x42], [false])
    ensures SubStreams.StreamSizes([0x21] + rest, [2], [0x42], []) == Ok(([0x21, 0x21], rest))
  {
    SubStreamsFit();
    var sizes: seq<uint64> := [0x21, 0x21];
    assert sizes[..1] == [0x21] && sizes[2..] == [];
    assert VarInt.Encode(0x21) == [0x21];
    assert Io.UInt64sBytes([0x21]) == [0x21] + [];
    assert SubStreams.WrittenSizes([2], [0x42], sizes) == Io.UInt64sBytes(sizes[..1]) + SubStreams.WrittenSizes([], [], []);
    SubStreams.StreamSizesRoundTrip([2], [0x42], [0x21, 0x21], rest, []);
    assert [] + [0x21 as uint64, 0x21] == [0x21, 0x21];
  }

  /** The two substream CRCs, in the all-defined form. */
  lemma SubStreamDigests(rest: seq<byte>)
    ensures Io.DigestsAfter(Property.CRC, [0x01] + (SUBSTREAMS_CRCS + ([0x00] + rest)), 2)
      == Ok((MAIN_SUBSTREAMS.digests, rest))
  {
    var ds := MAIN_SUBSTREAMS.digests.value;
    assert Io.CrcBytes(ds) == SUBSTREAMS_CRCS by {
      assert LeBytes(0x08626a3e, 4) == [0x3e, 0x6a, 0x62, 0x08];
      assert LeBytes(0x88b79ace, 4) == [0xce, 0x9a, 0xb7, 0x88];
    }
    Io.DigestsAllDefined(ds, [0x00] + rest);
    Property.ExpectCons(Property.END, rest);
  }

  lemma AfterSubStreamSizes(rest: seq<byte>)
    ensures SubStreams.AfterSizes([2], [0x21, 0x21], 0x0a, [0x01] + (SUBSTREAMS_CRCS + ([0x00] + rest)), [false])
      == Ok((MAIN_SUBSTREAMS, rest))
  {
    assert SubStreams.NumDigests([2], [false]) == 2;
    SubStreamDigests(rest);
  }

  /** The substreams section reads stage by stage. */
  lemma ReadSubStreams(rest: seq<byte>)
    ensures SubStreams.Parse(SUBSTREAMS_BYTES + rest, [0x42], [false]) == Ok((MAIN_SUBSTREAMS, rest))
  {
    var t4 := [0x01] + (SUBSTREAMS_CRCS + ([0x00] + rest));
    var t3 := [0x21] + ([0x0a] + t4);
    var t2 := [0x09] + t3;
    var t1 := [0x02] + t2;
    assert SUBSTREAMS_BYTES + rest == [0x0d] + t1;
    TakeByteCons(0x0d, t1);
    assert VarInt.Encode(2) == [0x02];
    assert Io.UInt64sBytes([2]) == [0x02] + [];
    Io.UInt64sRoundTrip([2], t2, []);
    assert [] + [2 as uint64] == [2];
    assert Io.UInt64s(t1, 1, []) == Ok(([2], t2));
    TakeByteCons(0x09, t3);
    assert SubStreams.AfterTag(0x0d, t1, [0x42], [false]) == SubStreams.AfterCounts([2], 0x09, t3, [0x42], [false]);
    SubStreamSizes([0x0a] + t4);
    TakeByteCons(0x0a, t4);
    assert SubStreams.AfterCounts([2], 0x09, t3, [0x42], [false])
      == SubStreams.AfterSizes([2], [0x21, 0x21], 0x0a, t4, [false]);
    AfterSubStreamSizes(rest);
  }

  lemma AfterUnpackRead(rest: seq<byte>)
    ensures UnpackInfo.Valid(MAIN_UNPACK)
    ensures StreamsInfo.AfterUnpack(Some(MAIN_PACK), Some(MAIN_UNPACK), Property.SUBSTREAMS_INFO,
      SUBSTREAMS_BYTES + ([0x00] + rest)) == Ok((MAIN_STREAMS, rest))
  {
    MainUnpackValid();
    ReadSubStreams([0x00] + rest);
    TakeByteCons(0x00, rest);
  }

  /** `StreamsInfo.retrieve` on the section: one packed stream, one LZMA folder
      of 0x42 bytes, and two files of 0x21 bytes with their CRCs. */
  lemma ReadMainStreams(rest: seq<byte>)
    ensures StreamsInfo.Parse(MAIN_BYTES + rest) == Ok((MAIN_STREAMS, rest))
    ensures StreamsInfo.Valid(MAIN_STREAMS)
  {
    SubStreamsFit();
    var t2 := [0x08] + (SUBSTREAMS_BYTES + ([0x00] + rest));
    var t := [0x07] + (UNPACK_BYTES + t2);
    AfterUnpackRead(rest);
    UnpackBytes();
    UnpackInfo.ParseSerialized(MAIN_UNPACK, t2);
    StreamsInfo.UnpackRead(MAIN_STREAMS, UNPACK_BYTES, t2, t, rest);
    StreamsInfo.PackPartRead(MAIN_STREAMS, t, rest);
    PackBytes();
    MainBytesSplit(rest);
  }

  lemma MainBytesSplit(rest: seq<byte>)
    ensures MAIN_BYTES + rest
      == ([0x06] + PACK_BYTES) + ([0x07] + (UNPACK_BYTES + ([0x08] + (SUBSTREAMS_BYTES + ([0x00] + rest)))))
  {
    var e := SUBSTREAMS_BYTES + [0x00];
    var d := [0x08] + e;
    var c := UNPACK_BYTES + d;
    var b := [0x07] + c;
    AppendAssoc([0x06], PACK_BYTES + b, rest);
    AppendAssoc(PACK_BYTES, b, rest);
    AppendAssoc([0x07], c, rest);
    AppendAssoc(UNPACK_BYTES, d, rest);
    AppendAssoc([0x08], e, rest);
    AppendAssoc(SUBSTREAMS_BYTES, [0x00], rest);
    AppendAssoc([0x06], PACK_BYTES, b + rest);
  }

  // ---------------------------------------------------------------------------
  // test_py7zr_header: a plain header with main streams and files info

  const SOLID_HEADER: Header.Header := Header.Header(None, None, Some(MAIN_STREAMS), Some(FilesVectors.FILES_1))

  const HEADER_BYTES: seq<byte> :=
    [0x01] + ([0x04] + (MAIN_BYTES + ([0x05] + (FilesVectors.FILES_BYTES_1 + [0x00]))))

  /** A plain header holding main streams and files info only, read part by
      part. */
  lemma MainAndFiles(main: StreamsInfo.StreamsInfo, files: FilesInfo.FilesInfo, m: seq<byte>, f: seq<byte>, rest: seq<byte>)
    requires StreamsInfo.Parse(m + ([Property.FILES_INFO] + (f + ([Property.END] + rest)))) == Ok((main, [Property.FILES_INFO] + (f + ([Property.END] + rest))))
    requires FilesInfo.Parse(f + ([Property.END] + rest)) == Ok((files, [Property.END] + rest))
    ensures Header.Plain([Property.HEADER] + ([Property.MAIN_STREAMS_INFO] + (m + ([Property.FILES_INFO] + (f + ([Property.END] + rest))))))
      == Ok((Header.Header(None, None, Some(main), Some(files)), rest))
  {
    var t2 := f + ([Property.END] + rest);
    var t1 := m + ([Property.FILES_INFO] + t2);
    var t := [Property.MAIN_STREAMS_INFO] + t1;
    Property.ExpectCons(Property.HEADER, t);
    TakeByteCons(Property.MAIN_STREAMS_INFO, t1);
    TakeByteCons(Property.FILES_INFO, t2);
    TakeByteCons(Property.END, rest);
    assert Header.Body(t) == Header.AfterProperties(None, t);
  }

  lemma ReadPlainHeader(rest: seq<byte>)
    ensures Header.Plain(HEADER_BYTES + rest) == Ok((SOLID_HEADER, rest))
  {
    var t2 := FilesVectors.FILES_BYTES_1 + ([0x00] + rest);
    HeaderBytesSplit(rest);
    ReadMainStreams([0x05] + t2);
    FilesVectors.ReadFiles1([0x00] + rest);
    MainAndFiles(MAIN_STREAMS, FilesVectors.FILES_1, MAIN_BYTES, FilesVectors.FILES_BYTES_1, rest);
  }

  /** `Header.retrieve` on a plain header: main streams and the three files,
      whatever unpacks encoded headers. */
  lemma ReadHeader(decompress: Header.Decompressor, rest: seq<byte>)
    ensures Header.Decode(HEADER_BYTES + rest, decompress) == Ok((SOLID_HEADER, rest))
    ensures var fi := SOLID_HEADER.filesInfo.value; fi.numFiles == 3 && FilesInfo.Valid(fi) && |FilesInfo.Files(fi)| == 3
  {
    HeaderBytesSplit(rest);
    ReadPlainHeader(rest);
    SolidFiles();
  }

  lemma SolidFiles()
    ensures var fi := SOLID_HEADER.filesInfo.value; fi.numFiles == 3 && FilesInfo.Valid(fi) && |FilesInfo.Files(fi)| == 3
  {
    FilesVectors.Files1List();
  }

  lemma HeaderBytesSplit(rest: seq<byte>)
    ensures HEADER_BYTES + rest
      == [0x01] + ([0x04] + (MAIN_BYTES + ([0x05] + (FilesVectors.FILES_BYTES_1 + ([0x00] + rest)))))
  {
    var d := FilesVectors.FILES_BYTES_1 + [0x00];
    var c := [0x05] + d;
    var b := MAIN_BYTES + c;
    var a := [0x04] + b;
    AppendAssoc([0x01], a, rest);
    AppendAssoc([0x04], b, rest);
    AppendAssoc(MAIN_BYTES, c, rest);
    AppendAssoc([0x05], d, rest);
    AppendAssoc(FilesVectors.FILES_BYTES_1, [0x00], rest);
  }

  // ---------------------------------------------------------------------------
  // test_py7zr_encoded_header: the streams info of a packed header

  /** The packed header: 0x70 bytes at offset 0x30. */
  const HEADER_PACK: PackInfo.PackInfo := PackInfo.PackInfo(0x30, [0x70], None)

  const HEADER_CODER: Folders.Coder := Folders.Coder([0x03, 0x01, 0x01], 1, 1, Some([0x5d, 0x00, 0x00, 0x10, 0x00]))

  const HEADER_FOLDER: Folders.Folder := Folders.Folder([HEADER_CODER], [], [0])

  /** It unpacks to 0x9d bytes with CRC 0x62b7a1e5. */
  const HEADER_UNPACK: UnpackInfo.UnpackInfo := UnpackInfo.UnpackInfo([HEADER_FOLDER], [[0x9d]], Some([Some(0x62b7a1e5)]))

  const HEADER_STREAMS: StreamsInfo.StreamsInfo := StreamsInfo.StreamsInfo(Some(HEADER_PACK), Some(HEADER_UNPACK), None)

  const HEADER_PACK_BYTES: seq<byte> := [0x30, 0x01, 0x09, 0x70, 0x00]

  const HEADER_CODER_BYTES: seq<byte> := [0x23] + ([0x03, 0x01, 0x01] + ([0x05] + [0x5d, 0x00, 0x00, 0x10, 0x00]))

  const HEADER_FOLDER_BYTES: seq<byte> := [0x01] + HEADER_CODER_BYTES

  const HEADER_CRC_BYTES: seq<byte> := [0xe5, 0xa1, 0xb7, 0x62]

  /** The unpack info, its folder CRC in the all-defined form. */
  const HEADER_UNPACK_BYTES: seq<byte> :=
    [0x0b] + ([0x01] + ([0x00] + (HEADER_FOLDER_BYTES + ([0x0c, 0x80, 0x9d] + ([0x0a] + ([0x01] + (HEADER_CRC_BYTES + [0x00])))))))

  /** The trailer after its 0x17 tag. */
  const ENCODED_BYTES: seq<byte> := [0x06] + (HEADER_PACK_BYTES + ([0x07] + (HEADER_UNPACK_BYTES + [0x00])))

  lemma HeaderPackBytes()
    ensures PackInfo.Valid(HEADER_PACK)
    ensures StreamsInfo.PackPart(Some(HEADER_PACK)) == [0x06] + HEADER_PACK_BYTES
  {
  }

  lemma HeaderFolderWellFormed()
    ensures Folders.WellFormed(HEADER_FOLDER)
  {
    assert Folders.TotalIn(HEADER_FOLDER.coders) == 1;
    assert Folders.TotalOut(HEADER_FOLDER.coders) == 1;
    assert Folders.Missing([], 1) == [0];
  }

  lemma HeaderFolderBytes()
    ensures UnpackInfo.AllWellFormed([HEADER_FOLDER])
    ensures UnpackInfo.FoldersBytes([HEADER_FOLDER]) == HEADER_FOLDER_BYTES
  {
    HeaderFolderWellFormed();
    HeaderFolderSerialized();
    assert UnpackInfo.FoldersBytes([HEADER_FOLDER]) == Folders.Serialized(HEADER_FOLDER) + [];
  }

  lemma HeaderFolderSerialized()
    ensures Folders.Serialized(HEADER_FOLDER) == HEADER_FOLDER_BYTES
  {
    HeaderCoderBytes();
    assert VarInt.Encode(1) == [0x01];
    assert Folders.CodersBytes([HEADER_CODER]) == HEADER_CODER_BYTES + [];
    assert Folders.BindPairsBytes([]) + Folders.PackedBytes([0]) == [];
  }

  lemma HeaderCoderBytes()
    ensures Folders.CoderBytes(HEADER_CODER) == HEADER_CODER_BYTES
  {
    var props := [0x5d, 0x00, 0x00, 0x10, 0x00];
    assert Folders.Flags(HEADER_CODER) == 0x23;
    assert Folders.CountsBytes(HEADER_CODER) == [];
    assert VarInt.Encode(5) == [0x05];
    assert Folders.AttributesBytes(HEADER_CODER.props) == [0x05] + props;
    assert [] + ([0x05] + props) == [0x05] + props;
  }

  lemma HeaderUnpackValid()
    ensures UnpackInfo.Valid(HEADER_UNPACK)
    ensures StreamsInfo.Valid(HEADER_STREAMS)
  {
    HeaderFolderWellFormed();
    HeaderPackBytes();
    assert UnpackInfo.AllWellFormed(HEADER_UNPACK.folders);
  }

  /** The sizes, then the folder CRC in the all-defined form, then END. */
  lemma HeaderAfterFolders(rest: seq<byte>)
    ensures UnpackInfo.AllWellFormed([HEADER_FOLDER])
    ensures UnpackInfo.AfterFolders([HEADER_FOLDER], [0x0c, 0x80, 0x9d] + ([0x0a] + ([0x01] + (HEADER_CRC_BYTES + ([0x00] + rest)))))
      == Ok((HEADER_UNPACK, rest))
  {
    HeaderUnpackValid();
    var t2 := [0x0a] + ([0x01] + (HEADER_CRC_BYTES + ([0x00] + rest)));
    var t1 := [0x80, 0x9d] + t2;
    assert [0x0c, 0x80, 0x9d] + t2 == [0x0c] + t1;
    Property.ExpectCons(Property.CODERS_UNPACK_SIZE, t1);
    assert VarInt.Encode(0x9d) == [0x80, 0x9d];
    assert UnpackInfo.SizesBytes([[0x9d]]) == [0x80, 0x9d];
    UnpackInfo.SizesRoundTrip([HEADER_FOLDER], [[0x9d]], t2, []);
    assert [] + [[0x9d as uint64]] == [[0x9d]];
    HeaderCrc(rest);
  }

  lemma HeaderCrc(rest: seq<byte>)
    ensures Io.DigestsEnd([0x0a] + ([0x01] + (HEADER_CRC_BYTES + ([0x00] + rest))), 1) == Ok((Some([Some(0x62b7a1e5)]), rest))
  {
    var ds := [Some(0x62b7a1e5 as uint32)];
    assert Io.CrcBytes(ds) == HEADER_CRC_BYTES by {
      assert LeBytes(0x62b7a1e5, 4) == HEADER_CRC_BYTES;
    }
    Io.DigestsEndAllDefined(ds, rest);
  }

  lemma ReadHeaderUnpack(rest: seq<byte>)
    ensures UnpackInfo.Parse(HEADER_UNPACK_BYTES + rest) == Ok((HEADER_UNPACK, rest))
  {
    var t4 := [0x0c, 0x80, 0x9d] + ([0x0a] + ([0x01] + (HEADER_CRC_BYTES + ([0x00] + rest))));
    var t3 := HEADER_FOLDER_BYTES + t4;
    var t2 := [0x00] + t3;
    var t1 := [0x01] + t2;
    HeaderUnpackBytesSplit(rest);
    Property.ExpectCons(Property.FOLDER, t1);
    VarInt.DecodeEncode(1, t2);
    TakeByteCons(0x00, t3);
    HeaderFolderWellFormed();
    HeaderFolderBytes();
    UnpackInfo.FolderListRoundTrip([HEADER_FOLDER], t4, 1, []);
    assert [] + [HEADER_FOLDER] == [HEADER_FOLDER];
    HeaderAfterFolders(rest);
  }

  lemma HeaderUnpackBytesSplit(rest: seq<byte>)
    ensures HEADER_UNPACK_BYTES + rest == [0x0b] + ([0x01] + ([0x00] + (HEADER_FOLDER_BYTES
      + ([0x0c, 0x80, 0x9d] + ([0x0a] + ([0x01] + (HEADER_CRC_BYTES + ([0x00] + rest))))))))
  {
    var g := HEADER_CRC_BYTES + [0x00];
    var f := [0x01] + g;
    var e := [0x0a] + f;
    var d := [0x0c, 0x80, 0x9d] + e;
    var c := HEADER_FOLDER_BYTES + d;
    var b := [0x00] + c;
    var a := [0x01] + b;
    AppendAssoc([0x0b], a, rest);
    AppendAssoc([0x01], b, rest);
    AppendAssoc([0x00], c, rest);
    AppendAssoc(HEADER_FOLDER_BYTES, d, rest);
    AppendAssoc([0x0c, 0x80, 0x9d], e, rest);
    AppendAssoc([0x0a], f, rest);
    AppendAssoc([0x01], g, rest);
    AppendAssoc(HEADER_CRC_BYTES, [0x00], rest);
  }

  /** The streams info of the encoded header: one packed stream holding one
      LZMA folder. */
  lemma ReadHeaderStreams(rest: seq<byte>)
    ensures StreamsInfo.Parse(ENCODED_BYTES + rest) == Ok((HEADER_STREAMS, rest))
    ensures StreamsInfo.Valid(HEADER_STREAMS)
  {
    HeaderUnpackValid();
    var t2 := [0x00] + rest;
    var t := [0x07] + (HEADER_UNPACK_BYTES + t2);
    ReadHeaderUnpack(t2);
    TakeByteCons(0x00, rest);
    assert StreamsInfo.AfterUnpack(Some(HEADER_PACK), Some(HEADER_UNPACK), t2[0], t2[1..]) == Ok((HEADER_STREAMS, rest));
    StreamsInfo.UnpackRead(HEADER_STREAMS, HEADER_UNPACK_BYTES, t2, t, rest);
    StreamsInfo.PackPartRead(HEADER_STREAMS, t, rest);
    HeaderPackBytes();
    EncodedBytesSplit(rest);
  }

  lemma EncodedBytesSplit(rest: seq<byte>)
    ensures ENCODED_BYTES + rest == ([0x06] + HEADER_PACK_BYTES) + ([0x07] + (HEADER_UNPACK_BYTES + ([0x00] + rest)))
  {
    var c := HEADER_UNPACK_BYTES + [0x00];
    var b := [0x07] + c;
    AppendAssoc([0x06], HEADER_PACK_BYTES + b, rest);
    AppendAssoc(HEADER_PACK_BYTES, b, rest);
    AppendAssoc([0x07], c, rest);
    AppendAssoc(HEADER_UNPACK_BYTES, [0x00], rest);
    AppendAssoc([0x06], HEADER_PACK_BYTES, b + rest);
  }

  /** `Header.retrieve` on the encoded header: the header is whatever the
      unpacked folder holds, read as a plain header, and the bytes after the
      streams info are left unread. */
  lemma ReadEncodedHeader(decompress: Header.Decompressor, data: seq<byte>, rest: seq<byte>)
    requires decompress(HEADER_STREAMS) == Ok(data)
    ensures Header.Plain(data).Ok? ==>
      Header.Decode([Property.ENCODED_HEADER] + (ENCODED_BYTES + rest), decompress) == Ok((Header.Plain(data).value.0, rest))
    ensures Header.Plain(data).Err? ==>
      Header.Decode([Property.ENCODED_HEADER] + (ENCODED_BYTES + rest), decompress) == Err(Header.Plain(data).error)
  {
    ReadHeaderStreams(rest);
    Header.EncodedAsPlain(ENCODED_BYTES + rest, decompress, HEADER_STREAMS, rest, data);
  }

  /** Were the packed header the plain header of the solid archive above, the
      encoded header would read as that header, with its three files. */
  lemma ReadEncodedSolidHeader(decompress: Header.Decompressor, padding: seq<byte>, rest: seq<byte>)
    requires decompress(HEADER_STREAMS) == Ok(HEADER_BYTES + padding)
    ensures Header.Decode([Property.ENCODED_HEADER] + (ENCODED_BYTES + rest), decompress) == Ok((SOLID_HEADER, rest))
    ensures var fi := SOLID_HEADER.filesInfo.value; fi.numFiles == 3 && FilesInfo.Valid(fi) && |FilesInfo.Files(fi)| == 3
  {
    ReadPlainHeader(padding);
    ReadEncodedHeader(decompress, HEADER_BYTES + padding, rest);
    SolidFiles();
  }
}
