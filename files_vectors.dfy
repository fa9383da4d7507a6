/** The files-info sections of the codec's unit tests, and the file list the
    model reads from them. Both sections write their times and attributes in
    the all-defined form (0x01 in place of the defined vector). */
module FilesVectors {
  import opened Bytes
  import VarInt
  import Io
  import Property
  import BitVector
  import Records
  import Utf16
  import FilesInfo

  // ---------------------------------------------------------------------------
  // Pieces shared by the two sections

  /** A record whose payload is shorter than 0x80 bytes: kind, length, payload. */
  lemma ShortRecord(kind: byte, data: seq<byte>)
    requires |data| < 0x80
    ensures Records.RecordBytes(Records.Record(kind, data)) == [kind, |data| as byte] + data
  {
  }

  /** ".txt" and its zero unit. */
  const NAME_TXT: seq<byte> := [0x2e, 0x00, 0x74, 0x00, 0x78, 0x00, 0x74, 0x00, 0x00, 0x00]

  lemma TxtName()
    ensures Utf16.NameBytes(".txt") == NAME_TXT
  {
  }

  /** A name ending in ".txt", stored as the units of its stem and then those
      of ".txt". */
  lemma TxtNameOf(stem: string, units: seq<byte>)
    requires Utf16.UnitsBytes(Utf16.Units(stem)) == units
    ensures Utf16.NameBytes(stem + ".txt") == units + NAME_TXT
  {
    Utf16.NameBytesAppend(stem, ".txt");
    TxtName();
  }

  /** Applying the records one by one, each to the columns the ones before it
      gave, then END. */
  lemma ThreeRecords(r1: Records.Record, r2: Records.Record, r3: Records.Record,
                     u0: FilesInfo.FilesInfo, u1: FilesInfo.FilesInfo, u2: FilesInfo.FilesInfo,
                     u3: FilesInfo.FilesInfo, rest: seq<byte>)
    requires r1.kind != Property.END && FilesInfo.Apply(u0, r1) == Ok(u1)
    requires r2.kind != Property.END && FilesInfo.Apply(u1, r2) == Ok(u2)
    requires r3.kind != Property.END && FilesInfo.Apply(u2, r3) == Ok(u3)
    ensures FilesInfo.Properties(Records.RecordBytes(r1) + (Records.RecordBytes(r2) + (Records.RecordBytes(r3)
      + ([Property.END] + rest))), u0) == Ok((u3, rest))
  {
    var t3 := [Property.END] + rest;
    Records.NextEnd(rest);
    assert FilesInfo.Properties(t3, u3) == Ok((u3, rest));
    FilesInfo.RecordRead(r3, t3, u2, u3, Ok((u3, rest)));
    var t2 := Records.RecordBytes(r3) + t3;
    FilesInfo.RecordRead(r2, t2, u1, u2, Ok((u3, rest)));
    FilesInfo.RecordRead(r1, Records.RecordBytes(r2) + t2, u0, u1, Ok((u3, rest)));
  }

  lemma FourRecords(r1: Records.Record, r2: Records.Record, r3: Records.Record, r4: Records.Record,
                    u0: FilesInfo.FilesInfo, u1: FilesInfo.FilesInfo, u2: FilesInfo.FilesInfo,
                    u3: FilesInfo.FilesInfo, u4: FilesInfo.FilesInfo, rest: seq<byte>)
    requires r1.kind != Property.END && FilesInfo.Apply(u0, r1) == Ok(u1)
    requires r2.kind != Property.END && FilesInfo.Apply(u1, r2) == Ok(u2)
    requires r3.kind != Property.END && FilesInfo.Apply(u2, r3) == Ok(u3)
    requires r4.kind != Property.END && FilesInfo.Apply(u3, r4) == Ok(u4)
    ensures FilesInfo.Properties(Records.RecordBytes(r1) + (Records.RecordBytes(r2) + (Records.RecordBytes(r3)
      + (Records.RecordBytes(r4) + ([Property.END] + rest)))), u0) == Ok((u4, rest))
  {
    ThreeRecords(r2, r3, r4, u1, u2, u3, u4, rest);
    var t := Records.RecordBytes(r2) + (Records.RecordBytes(r3) + (Records.RecordBytes(r4) + ([Property.END] + rest)));
    FilesInfo.RecordRead(r1, t, u0, u1, Ok((u4, rest)));
  }

  /** The number of files, then the records. */
  lemma CountThenRecords(n: uint64, s: seq<byte>, info: FilesInfo.FilesInfo, rest: seq<byte>)
    requires n < 0x80 && FilesInfo.Properties(s, FilesInfo.Empty(n)) == Ok((info, rest))
    ensures FilesInfo.Parse([n as byte] + s) == Ok((info, rest))
  {
    VarInt.DecodeEncode(n, s);
  }

  // ---------------------------------------------------------------------------
  // test_py7zr_files_info: a directory and two files

  const NAMES_1: seq<string> := ["test", "test1.txt", "test/test2.txt"]

  const NAME_TEST: seq<byte> := [0x74, 0x00, 0x65, 0x00, 0x73, 0x00, 0x74, 0x00, 0x00, 0x00]

  const NAME_TEST1: seq<byte> := [0x74, 0x00, 0x65, 0x00, 0x73, 0x00, 0x74, 0x00, 0x31, 0x00] + NAME_TXT

  const NAME_TEST2: seq<byte> :=
    [0x74, 0x00, 0x65, 0x00, 0x73, 0x00, 0x74, 0x00, 0x2f, 0x00, 0x74, 0x00, 0x65, 0x00]
    + [0x73, 0x00, 0x74, 0x00, 0x32, 0x00, 0x2e, 0x00, 0x74, 0x00, 0x78, 0x00, 0x74, 0x00, 0x00, 0x00]

  /** Last-write FILETIMEs, little-endian. */
  const STAMP_TEST: seq<byte> := [0x04, 0x3e, 0xe6, 0x0f, 0x7b, 0x48, 0xc6, 0x01]
  const STAMP_TEST1: seq<byte> := [0x64, 0xca, 0x20, 0x8b, 0x79, 0x48, 0xc6, 0x01]
  const STAMP_TEST2: seq<byte> := [0x8c, 0xfa, 0xb6, 0x83, 0x79, 0x48, 0xc6, 0x01]

  const MTIMES_1: FilesInfo.Times := [Some(0x01c6487b0fe63e04), Some(0x01c648798b20ca64), Some(0x01c6487983b6fa8c)]

  /** The directory attribute, then the archive attribute twice. */
  const ATTRIBUTES_1: seq<Option<uint32>> := [Some(0x10), Some(0x20), Some(0x20)]

  /** The first file has no data stream. */
  const EMPTY_STREAM_1: seq<bool> := [true, false, false]

  const FILES_1: FilesInfo.FilesInfo :=
    FilesInfo.FilesInfo(3, Some(EMPTY_STREAM_1), None, None, Some(NAMES_1), None, None, Some(MTIMES_1), Some(ATTRIBUTES_1))

  const EMPTY_STREAM_RECORD_1: seq<byte> := [0x0e, 0x01, 0x80]

  const NAMES_RECORD_1: seq<byte> := [0x11, 0x3d] + ([0x00] + (NAME_TEST + (NAME_TEST1 + NAME_TEST2)))

  const MTIME_RECORD_1: seq<byte> := [0x14, 0x1a] + ([0x01, 0x00] + (STAMP_TEST + (STAMP_TEST1 + STAMP_TEST2)))

  const ATTRIBUTES_RECORD_1: seq<byte> :=
    [0x15, 0x0e] + ([0x01, 0x00] + ([0x10, 0x00, 0x00, 0x00] + ([0x20, 0x00, 0x00, 0x00] + [0x20, 0x00, 0x00, 0x00])))

  /** The section after its 0x05 tag. */
  const FILES_BYTES_1: seq<byte> :=
    [0x03] + (EMPTY_STREAM_RECORD_1 + (NAMES_RECORD_1 + (MTIME_RECORD_1 + (ATTRIBUTES_RECORD_1 + [0x00]))))

  lemma TestName()
    ensures Utf16.NameBytes("test") == NAME_TEST
  {
  }

  lemma Test1Name()
    ensures Utf16.NameBytes("test1.txt") == NAME_TEST1
  {
    Test1Units();
    TxtNameOf("test1", [0x74, 0x00, 0x65, 0x00, 0x73, 0x00, 0x74, 0x00, 0x31, 0x00]);
    Test1Split();
  }

  lemma Test1Units()
    ensures Utf16.UnitsBytes(Utf16.Units("test1")) == [0x74, 0x00, 0x65, 0x00, 0x73, 0x00, 0x74, 0x00, 0x31, 0x00]
  {
  }

  lemma Test1Split()
    ensures "test1" + ".txt" == "test1.txt"
  {
  }

  lemma Test2Name()
    ensures Utf16.NameBytes("test/test2.txt") == NAME_TEST2
  {
    var dir := [0x74, 0x00, 0x65, 0x00, 0x73, 0x00, 0x74, 0x00, 0x2f, 0x00];
    var file := [0x74, 0x00, 0x65, 0x00, 0x73, 0x00, 0x74, 0x00, 0x32, 0x00];
    DirUnits();
    Test2Units();
    TxtNameOf("test2", file);
    Utf16.NameBytesAppend("test/", "test2" + ".txt");
    Test2Split();
    Test2Bytes();
  }

  lemma Test2Split()
    ensures "test/" + ("test2" + ".txt") == "test/test2.txt"
  {
  }

  lemma Test2Bytes()
    ensures [0x74, 0x00, 0x65, 0x00, 0x73, 0x00, 0x74, 0x00, 0x2f, 0x00]
      + ([0x74, 0x00, 0x65, 0x00, 0x73, 0x00, 0x74, 0x00, 0x32, 0x00] + NAME_TXT) == NAME_TEST2
  {
  }

  lemma DirUnits()
    ensures Utf16.UnitsBytes(Utf16.Units("test/")) == [0x74, 0x00, 0x65, 0x00, 0x73, 0x00, 0x74, 0x00, 0x2f, 0x00]
  {
  }

  lemma Test2Units()
    ensures Utf16.UnitsBytes(Utf16.Units("test2")) == [0x74, 0x00, 0x65, 0x00, 0x73, 0x00, 0x74, 0x00, 0x32, 0x00]
  {
  }

  lemma NamesBytesCons(name: string, names: seq<string>)
    ensures FilesInfo.NamesBytes([name] + names) == Utf16.NameBytes(name) + FilesInfo.NamesBytes(names)
  {
    assert ([name] + names)[1..] == names;
  }

  lemma Names1Storable()
    ensures FilesInfo.AllStorable(NAMES_1)
  {
    assert Utf16.Storable("test");
    assert Utf16.Storable("test1.txt");
    assert Utf16.Storable("test/test2.txt");
  }

  lemma Names1Bytes()
    ensures FilesInfo.NamesBytes(NAMES_1) == NAME_TEST + (NAME_TEST1 + NAME_TEST2)
  {
    TestName();
    Test1Name();
    Test2Name();
    NamesBytesCons("test/test2.txt", []);
    NamesBytesCons("test1.txt", ["test/test2.txt"]);
    NamesBytesCons("test", ["test1.txt", "test/test2.txt"]);
    Names1Split();
    assert FilesInfo.NamesBytes([]) == [];
    assert NAME_TEST2 + [] == NAME_TEST2;
  }

  lemma Names1Split()
    ensures NAMES_1 == ["test"] + (["test1.txt"] + (["test/test2.txt"] + []))
  {
  }

  lemma StampCons(t: uint64, ts: FilesInfo.Times)
    ensures FilesInfo.StampBytes([Some(t)] + ts) == LeBytes(t as nat, 8) + FilesInfo.StampBytes(ts)
  {
    assert ([Some(t)] + ts)[1..] == ts;
  }

  lemma StampTest()
    ensures LeBytes(0x01c6487b0fe63e04, 8) == STAMP_TEST
  {
    assert LeBytes(0x1, 1) == [0x01];
    assert LeBytes(0x1c6, 2) == [0xc6, 0x01];
    assert LeBytes(0x1c648, 3) == [0x48, 0xc6, 0x01];
    assert LeBytes(0x1c6487b, 4) == [0x7b, 0x48, 0xc6, 0x01];
    assert LeBytes(0x1c6487b0f, 5) == [0x0f, 0x7b, 0x48, 0xc6, 0x01];
    assert LeBytes(0x1c6487b0fe6, 6) == [0xe6, 0x0f, 0x7b, 0x48, 0xc6, 0x01];
    assert LeBytes(0x1c6487b0fe63e, 7) == [0x3e, 0xe6, 0x0f, 0x7b, 0x48, 0xc6, 0x01];
  }

  lemma StampTest1()
    ensures LeBytes(0x01c648798b20ca64, 8) == STAMP_TEST1
  {
    assert LeBytes(0x1, 1) == [0x01];
    assert LeBytes(0x1c6, 2) == [0xc6, 0x01];
    assert LeBytes(0x1c648, 3) == [0x48, 0xc6, 0x01];
    assert LeBytes(0x1c64879, 4) == [0x79, 0x48, 0xc6, 0x01];
    assert LeBytes(0x1c648798b, 5) == [0x8b, 0x79, 0x48, 0xc6, 0x01];
    assert LeBytes(0x1c648798b20, 6) == [0x20, 0x8b, 0x79, 0x48, 0xc6, 0x01];
    assert LeBytes(0x1c648798b20ca, 7) == [0xca, 0x20, 0x8b, 0x79, 0x48, 0xc6, 0x01];
  }

  lemma StampTest2()
    ensures LeBytes(0x01c6487983b6fa8c, 8) == STAMP_TEST2
  {
    assert LeBytes(0x1, 1) == [0x01];
    assert LeBytes(0x1c6, 2) == [0xc6, 0x01];
    assert LeBytes(0x1c648, 3) == [0x48, 0xc6, 0x01];
    assert LeBytes(0x1c64879, 4) == [0x79, 0x48, 0xc6, 0x01];
    assert LeBytes(0x1c6487983, 5) == [0x83, 0x79, 0x48, 0xc6, 0x01];
    assert LeBytes(0x1c6487983b6, 6) == [0xb6, 0x83, 0x79, 0x48, 0xc6, 0x01];
    assert LeBytes(0x1c6487983b6fa, 7) == [0xfa, 0xb6, 0x83, 0x79, 0x48, 0xc6, 0x01];
  }

  lemma Stamps1Bytes()
    ensures FilesInfo.StampBytes(MTIMES_1) == STAMP_TEST + (STAMP_TEST1 + STAMP_TEST2)
  {
    StampTest();
    StampTest1();
    StampTest2();
    StampCons(0x01c6487983b6fa8c, []);
    StampCons(0x01c648798b20ca64, [Some(0x01c6487983b6fa8c)]);
    StampCons(0x01c6487b0fe63e04, [Some(0x01c648798b20ca64), Some(0x01c6487983b6fa8c)]);
    assert MTIMES_1 == [Some(0x01c6487b0fe63e04)] + [Some(0x01c648798b20ca64), Some(0x01c6487983b6fa8c)];
    assert [Some(0x01c648798b20ca64), Some(0x01c6487983b6fa8c)] == [Some(0x01c648798b20ca64)] + [Some(0x01c6487983b6fa8c)];
    assert [Some(0x01c6487983b6fa8c)] == [Some(0x01c6487983b6fa8c as uint64)] + [];
    assert FilesInfo.StampBytes([]) == [];
    assert STAMP_TEST2 + [] == STAMP_TEST2;
  }

  lemma Attributes1Bytes()
    ensures Io.CrcBytes(ATTRIBUTES_1) == [0x10, 0x00, 0x00, 0x00] + ([0x20, 0x00, 0x00, 0x00] + [0x20, 0x00, 0x00, 0x00])
  {
    assert ATTRIBUTES_1[1..][1..] == [Some(0x20)];
  }

  lemma ApplyEmptyStream1()
    ensures FilesInfo.Apply(FilesInfo.Empty(3), Records.Record(Property.EMPTY_STREAM, [0x80]))
      == Ok(FilesInfo.Empty(3).(emptyStream := Some(EMPTY_STREAM_1)))
  {
    assert BitVector.Pack(EMPTY_STREAM_1) == [0x80];
    FilesInfo.ApplyEmptyStream(FilesInfo.Empty(3), EMPTY_STREAM_1);
  }

  lemma ApplyNames1(u: FilesInfo.FilesInfo)
    requires u.numFiles == 3
    ensures FilesInfo.Apply(u, Records.Record(Property.NAME, [0x00] + (NAME_TEST + (NAME_TEST1 + NAME_TEST2))))
      == Ok(u.(names := Some(NAMES_1)))
  {
    Names1Storable();
    Names1Bytes();
    FilesInfo.ApplyNames(u, NAMES_1);
  }

  lemma ApplyMTimes1(u: FilesInfo.FilesInfo)
    requires u.numFiles == 3
    ensures FilesInfo.Apply(u, Records.Record(Property.LAST_WRITE_TIME, [0x01, 0x00] + (STAMP_TEST + (STAMP_TEST1 + STAMP_TEST2))))
      == Ok(u.(lastWriteTime := Some(MTIMES_1)))
  {
    Stamps1Bytes();
    FilesInfo.ApplyLastWriteTimeAllDefined(u, MTIMES_1);
  }

  lemma ApplyAttributes1(u: FilesInfo.FilesInfo)
    requires u.numFiles == 3
    ensures FilesInfo.Apply(u, Records.Record(Property.ATTRIBUTES,
        [0x01, 0x00] + ([0x10, 0x00, 0x00, 0x00] + ([0x20, 0x00, 0x00, 0x00] + [0x20, 0x00, 0x00, 0x00]))))
      == Ok(u.(attributes := Some(ATTRIBUTES_1)))
  {
    Attributes1Bytes();
    FilesInfo.ApplyAttributesAllDefined(u, ATTRIBUTES_1);
  }

  lemma Records1Bytes()
    ensures Records.RecordBytes(Records.Record(Property.EMPTY_STREAM, [0x80])) == EMPTY_STREAM_RECORD_1
    ensures Records.RecordBytes(Records.Record(Property.NAME, [0x00] + (NAME_TEST + (NAME_TEST1 + NAME_TEST2))))
      == NAMES_RECORD_1
    ensures Records.RecordBytes(Records.Record(Property.LAST_WRITE_TIME,
        [0x01, 0x00] + (STAMP_TEST + (STAMP_TEST1 + STAMP_TEST2)))) == MTIME_RECORD_1
    ensures Records.RecordBytes(Records.Record(Property.ATTRIBUTES,
        [0x01, 0x00] + ([0x10, 0x00, 0x00, 0x00] + ([0x20, 0x00, 0x00, 0x00] + [0x20, 0x00, 0x00, 0x00]))))
      == ATTRIBUTES_RECORD_1
  {
    ShortRecord(Property.EMPTY_STREAM, [0x80]);
    ShortRecord(Property.NAME, [0x00] + (NAME_TEST + (NAME_TEST1 + NAME_TEST2)));
    ShortRecord(Property.LAST_WRITE_TIME, [0x01, 0x00] + (STAMP_TEST + (STAMP_TEST1 + STAMP_TEST2)));
    ShortRecord(Property.ATTRIBUTES,
      [0x01, 0x00] + ([0x10, 0x00, 0x00, 0x00] + ([0x20, 0x00, 0x00, 0x00] + [0x20, 0x00, 0x00, 0x00])));
  }

  /** `FilesInfo.retrieve` on the section: three files named test, test1.txt
      and test/test2.txt, the first without a data stream, each with its
      last-write time and attributes. */
  lemma ReadFiles1(rest: seq<byte>)
    ensures FilesInfo.Parse(FILES_BYTES_1 + rest) == Ok((FILES_1, rest))
  {
    var r1 := Records.Record(Property.EMPTY_STREAM, [0x80]);
    var r2 := Records.Record(Property.NAME, [0x00] + (NAME_TEST + (NAME_TEST1 + NAME_TEST2)));
    var r3 := Records.Record(Property.LAST_WRITE_TIME, [0x01, 0x00] + (STAMP_TEST + (STAMP_TEST1 + STAMP_TEST2)));
    var r4 := Records.Record(Property.ATTRIBUTES,
      [0x01, 0x00] + ([0x10, 0x00, 0x00, 0x00] + ([0x20, 0x00, 0x00, 0x00] + [0x20, 0x00, 0x00, 0x00])));
    var u0 := FilesInfo.Empty(3);
    var u1 := u0.(emptyStream := Some(EMPTY_STREAM_1));
    var u2 := u1.(names := Some(NAMES_1));
    var u3 := u2.(lastWriteTime := Some(MTIMES_1));
    ApplyEmptyStream1();
    ApplyNames1(u1);
    ApplyMTimes1(u2);
    ApplyAttributes1(u3);
    Records1Bytes();
    FourRecords(r1, r2, r3, r4, u0, u1, u2, u3, FILES_1, rest);
    Files1Split(rest);
    CountThenRecords(3, EMPTY_STREAM_RECORD_1 + (NAMES_RECORD_1 + (MTIME_RECORD_1 + (ATTRIBUTES_RECORD_1 + ([0x00] + rest)))),
      FILES_1, rest);
  }

  lemma Files1Split(rest: seq<byte>)
    ensures FILES_BYTES_1 + rest
      == [0x03] + (EMPTY_STREAM_RECORD_1 + (NAMES_RECORD_1 + (MTIME_RECORD_1 + (ATTRIBUTES_RECORD_1 + ([0x00] + rest)))))
  {
    var d := ATTRIBUTES_RECORD_1 + [0x00];
    var c := MTIME_RECORD_1 + d;
    var b := NAMES_RECORD_1 + c;
    var a := EMPTY_STREAM_RECORD_1 + b;
    AppendAssoc([0x03], a, rest);
    AppendAssoc(EMPTY_STREAM_RECORD_1, b, rest);
    AppendAssoc(NAMES_RECORD_1, c, rest);
    AppendAssoc(MTIME_RECORD_1, d, rest);
    AppendAssoc(ATTRIBUTES_RECORD_1, [0x00], rest);
  }

  /** The file list of the section: what the test looks up by index. */
  lemma Files1List()
    ensures FilesInfo.Valid(FILES_1) && |FilesInfo.Files(FILES_1)| == 3
    ensures FilesInfo.Files(FILES_1)[0].name == Some("test")
    ensures FilesInfo.Files(FILES_1)[1].name == Some("test1.txt")
    ensures FilesInfo.Files(FILES_1)[2].name == Some("test/test2.txt")
    ensures FilesInfo.Files(FILES_1)[0].emptyStream && FilesInfo.Files(FILES_1)[0].attributes == Some(0x10)
  {
    Names1Storable();
  }
  // ---------------------------------------------------------------------------
  // test_py7zr_files_info2: four text files

  const NAMES_2: seq<string> := ["copying.txt", "History.txt", "License.txt", "readme.txt"]

  const NAME_COPYING: seq<byte> := [0x63, 0x00, 0x6f, 0x00, 0x70, 0x00, 0x79, 0x00, 0x69, 0x00, 0x6e, 0x00, 0x67, 0x00] + NAME_TXT

  const NAME_HISTORY: seq<byte> := [0x48, 0x00, 0x69, 0x00, 0x73, 0x00, 0x74, 0x00, 0x6f, 0x00, 0x72, 0x00, 0x79, 0x00] + NAME_TXT

  const NAME_LICENSE: seq<byte> := [0x4c, 0x00, 0x69, 0x00, 0x63, 0x00, 0x65, 0x00, 0x6e, 0x00, 0x73, 0x00, 0x65, 0x00] + NAME_TXT

  const NAME_README: seq<byte> := [0x72, 0x00, 0x65, 0x00, 0x61, 0x00, 0x64, 0x00, 0x6d, 0x00, 0x65, 0x00] + NAME_TXT

  /** Last-write FILETIMEs, little-endian. */
  const STAMP_COPYING: seq<byte> := [0x00, 0x5b, 0x17, 0xe6, 0xc7, 0x30, 0xc1, 0x01]
  const STAMP_HISTORY: seq<byte> := [0x00, 0x56, 0x68, 0xb5, 0xda, 0xf8, 0xc5, 0x01]
  const STAMP_LICENSE: seq<byte> := [0x00, 0x97, 0xbd, 0xf9, 0x07, 0xf7, 0xc4, 0x01]
  const STAMP_README: seq<byte> := [0x00, 0x67, 0x4b, 0xa8, 0xda, 0xf8, 0xc5, 0x01]

  const MTIMES_2: FilesInfo.Times := [Some(0x01c130c7e6175b00), Some(0x01c5f8dab5685600), Some(0x01c4f707f9bd9700), Some(0x01c5f8daa84b6700)]

  /** Each file has the archive and not-content-indexed attributes. */
  const ATTRIBUTES_2: seq<Option<uint32>> := [Some(0x2020), Some(0x2020), Some(0x2020), Some(0x2020)]

  const FILES_2: FilesInfo.FilesInfo :=
    FilesInfo.FilesInfo(4, None, None, None, Some(NAMES_2), None, None, Some(MTIMES_2), Some(ATTRIBUTES_2))

  const NAMES_DATA_2: seq<byte> := [0x00] + (NAME_COPYING + (NAME_HISTORY + (NAME_LICENSE + NAME_README)))

  const MTIME_DATA_2: seq<byte> := [0x01, 0x00] + (STAMP_COPYING + (STAMP_HISTORY + (STAMP_LICENSE + STAMP_README)))

  const ATTRIBUTE_2020: seq<byte> := [0x20, 0x20, 0x00, 0x00]

  const ATTRIBUTES_DATA_2: seq<byte> :=
    [0x01, 0x00] + (ATTRIBUTE_2020 + (ATTRIBUTE_2020 + (ATTRIBUTE_2020 + ATTRIBUTE_2020)))

  const NAMES_RECORD_2: seq<byte> := [0x11, 0x5f] + NAMES_DATA_2

  const MTIME_RECORD_2: seq<byte> := [0x14, 0x22] + MTIME_DATA_2

  const ATTRIBUTES_RECORD_2: seq<byte> := [0x15, 0x12] + ATTRIBUTES_DATA_2

  /** The section after its 0x05 tag. */
  const FILES_BYTES_2: seq<byte> := [0x04] + (NAMES_RECORD_2 + (MTIME_RECORD_2 + (ATTRIBUTES_RECORD_2 + [0x00])))

  lemma CopyingName()
    ensures Utf16.NameBytes("copying.txt") == NAME_COPYING
  {
    CopyingUnits();
    TxtNameOf("copying", [0x63, 0x00, 0x6f, 0x00, 0x70, 0x00, 0x79, 0x00, 0x69, 0x00, 0x6e, 0x00, 0x67, 0x00]);
    CopyingSplit();
  }

  lemma CopyingUnits()
    ensures Utf16.UnitsBytes(Utf16.Units("copying")) == [0x63, 0x00, 0x6f, 0x00, 0x70, 0x00, 0x79, 0x00, 0x69, 0x00, 0x6e, 0x00, 0x67, 0x00]
  {
  }

  lemma CopyingSplit()
    ensures "copying" + ".txt" == "copying.txt"
  {
  }

  lemma HistoryName()
    ensures Utf16.NameBytes("History.txt") == NAME_HISTORY
  {
    HistoryUnits();
    TxtNameOf("History", [0x48, 0x00, 0x69, 0x00, 0x73, 0x00, 0x74, 0x00, 0x6f, 0x00, 0x72, 0x00, 0x79, 0x00]);
    HistorySplit();
  }

  lemma HistoryUnits()
    ensures Utf16.UnitsBytes(Utf16.Units("History")) == [0x48, 0x00, 0x69, 0x00, 0x73, 0x00, 0x74, 0x00, 0x6f, 0x00, 0x72, 0x00, 0x79, 0x00]
  {
  }

  lemma HistorySplit()
    ensures "History" + ".txt" == "History.txt"
  {
  }

  lemma LicenseName()
    ensures Utf16.NameBytes("License.txt") == NAME_LICENSE
  {
    LicenseUnits();
    TxtNameOf("License", [0x4c, 0x00, 0x69, 0x00, 0x63, 0x00, 0x65, 0x00, 0x6e, 0x00, 0x73, 0x00, 0x65, 0x00]);
    LicenseSplit();
  }

  lemma LicenseUnits()
    ensures Utf16.UnitsBytes(Utf16.Units("License")) == [0x4c, 0x00, 0x69, 0x00, 0x63, 0x00, 0x65, 0x00, 0x6e, 0x00, 0x73, 0x00, 0x65, 0x00]
  {
  }

  lemma LicenseSplit()
    ensures "License" + ".txt" == "License.txt"
  {
  }

  lemma ReadmeName()
    ensures Utf16.NameBytes("readme.txt") == NAME_README
  {
    ReadmeUnits();
    TxtNameOf("readme", [0x72, 0x00, 0x65, 0x00, 0x61, 0x00, 0x64, 0x00, 0x6d, 0x00, 0x65, 0x00]);
    ReadmeSplit();
  }

  lemma ReadmeUnits()
    ensures Utf16.UnitsBytes(Utf16.Units("readme")) == [0x72, 0x00, 0x65, 0x00, 0x61, 0x00, 0x64, 0x00, 0x6d, 0x00, 0x65, 0x00]
  {
  }

  lemma ReadmeSplit()
    ensures "readme" + ".txt" == "readme.txt"
  {
  }

  lemma Names2Storable()
    ensures FilesInfo.AllStorable(NAMES_2)
  {
    assert Utf16.Storable("copying.txt");
    assert Utf16.Storable("History.txt");
    assert Utf16.Storable("License.txt");
    assert Utf16.Storable("readme.txt");
  }

  lemma Names2Split()
    ensures NAMES_2 == ["copying.txt"] + (["History.txt"] + (["License.txt"] + (["readme.txt"] + [])))
  {
  }

  lemma Names2Bytes()
    ensures FilesInfo.NamesBytes(NAMES_2) == NAME_COPYING + (NAME_HISTORY + (NAME_LICENSE + NAME_README))
  {
    CopyingName();
    HistoryName();
    LicenseName();
    ReadmeName();
    NamesBytesCons("readme.txt", []);
    NamesBytesCons("License.txt", ["readme.txt"]);
    NamesBytesCons("History.txt", ["License.txt", "readme.txt"]);
    NamesBytesCons("copying.txt", ["History.txt", "License.txt", "readme.txt"]);
    Names2Split();
    assert FilesInfo.NamesBytes([]) == [];
    assert NAME_README + [] == NAME_README;
  }

  lemma StampCopying()
    ensures LeBytes(0x01c130c7e6175b00, 8) == STAMP_COPYING
  {
    assert LeBytes(0x1, 1) == [0x01];
    assert LeBytes(0x1c1, 2) == [0xc1, 0x01];
    assert LeBytes(0x1c130, 3) == [0x30, 0xc1, 0x01];
    assert LeBytes(0x1c130c7, 4) == [0xc7, 0x30, 0xc1, 0x01];
    assert LeBytes(0x1c130c7e6, 5) == [0xe6, 0xc7, 0x30, 0xc1, 0x01];
    assert LeBytes(0x1c130c7e617, 6) == [0x17, 0xe6, 0xc7, 0x30, 0xc1, 0x01];
    assert LeBytes(0x1c130c7e6175b, 7) == [0x5b, 0x17, 0xe6, 0xc7, 0x30, 0xc1, 0x01];
  }

  lemma StampHistory()
    ensures LeBytes(0x01c5f8dab5685600, 8) == STAMP_HISTORY
  {
    assert LeBytes(0x1, 1) == [0x01];
    assert LeBytes(0x1c5, 2) == [0xc5, 0x01];
    assert LeBytes(0x1c5f8, 3) == [0xf8, 0xc5, 0x01];
    assert LeBytes(0x1c5f8da, 4) == [0xda, 0xf8, 0xc5, 0x01];
    assert LeBytes(0x1c5f8dab5, 5) == [0xb5, 0xda, 0xf8, 0xc5, 0x01];
    assert LeBytes(0x1c5f8dab568, 6) == [0x68, 0xb5, 0xda, 0xf8, 0xc5, 0x01];
    assert LeBytes(0x1c5f8dab56856, 7) == [0x56, 0x68, 0xb5, 0xda, 0xf8, 0xc5, 0x01];
  }

  lemma StampLicense()
    ensures LeBytes(0x01c4f707f9bd9700, 8) == STAMP_LICENSE
  {
    assert LeBytes(0x1, 1) == [0x01];
    assert LeBytes(0x1c4, 2) == [0xc4, 0x01];
    assert LeBytes(0x1c4f7, 3) == [0xf7, 0xc4, 0x01];
    assert LeBytes(0x1c4f707, 4) == [0x07, 0xf7, 0xc4, 0x01];
    assert LeBytes(0x1c4f707f9, 5) == [0xf9, 0x07, 0xf7, 0xc4, 0x01];
    assert LeBytes(0x1c4f707f9bd, 6) == [0xbd, 0xf9, 0x07, 0xf7, 0xc4, 0x01];
    assert LeBytes(0x1c4f707f9bd97, 7) == [0x97, 0xbd, 0xf9, 0x07, 0xf7, 0xc4, 0x01];
  }

  lemma StampReadme()
    ensures LeBytes(0x01c5f8daa84b6700, 8) == STAMP_README
  {
    assert LeBytes(0x1, 1) == [0x01];
    assert LeBytes(0x1c5, 2) == [0xc5, 0x01];
    assert LeBytes(0x1c5f8, 3) == [0xf8, 0xc5, 0x01];
    assert LeBytes(0x1c5f8da, 4) == [0xda, 0xf8, 0xc5, 0x01];
    assert LeBytes(0x1c5f8daa8, 5) == [0xa8, 0xda, 0xf8, 0xc5, 0x01];
    assert LeBytes(0x1c5f8daa84b, 6) == [0x4b, 0xa8, 0xda, 0xf8, 0xc5, 0x01];
    assert LeBytes(0x1c5f8daa84b67, 7) == [0x67, 0x4b, 0xa8, 0xda, 0xf8, 0xc5, 0x01];
  }

  lemma Stamps2Split()
    ensures MTIMES_2 == [Some(0x01c130c7e6175b00)] + ([Some(0x01c5f8dab5685600)] + ([Some(0x01c4f707f9bd9700)] + ([Some(0x01c5f8daa84b6700)] + [])))
  {
  }

  lemma Stamps2Bytes()
    ensures FilesInfo.StampBytes(MTIMES_2) == STAMP_COPYING + (STAMP_HISTORY + (STAMP_LICENSE + STAMP_README))
  {
    StampCopying();
    StampHistory();
    StampLicense();
    StampReadme();
    StampCons(0x01c5f8daa84b6700, []);
    StampCons(0x01c4f707f9bd9700, [Some(0x01c5f8daa84b6700)]);
    StampCons(0x01c5f8dab5685600, [Some(0x01c4f707f9bd9700), Some(0x01c5f8daa84b6700)]);
    StampCons(0x01c130c7e6175b00, [Some(0x01c5f8dab5685600), Some(0x01c4f707f9bd9700), Some(0x01c5f8daa84b6700)]);
    Stamps2Split();
    assert FilesInfo.StampBytes([]) == [];
    assert STAMP_README + [] == STAMP_README;
  }

  lemma Attributes2Bytes()
    ensures Io.CrcBytes(ATTRIBUTES_2) == ATTRIBUTE_2020 + (ATTRIBUTE_2020 + (ATTRIBUTE_2020 + ATTRIBUTE_2020))
  {
    assert LeBytes(0x2020, 4) == ATTRIBUTE_2020;
    assert ATTRIBUTES_2[1..][1..][1..] == [Some(0x2020)];
  }

  lemma ApplyNames2(u: FilesInfo.FilesInfo)
    requires u.numFiles == 4
    ensures FilesInfo.Apply(u, Records.Record(Property.NAME, NAMES_DATA_2)) == Ok(u.(names := Some(NAMES_2)))
  {
    Names2Storable();
    Names2Bytes();
    FilesInfo.ApplyNames(u, NAMES_2);
  }

  lemma ApplyMTimes2(u: FilesInfo.FilesInfo)
    requires u.numFiles == 4
    ensures FilesInfo.Apply(u, Records.Record(Property.LAST_WRITE_TIME, MTIME_DATA_2)) == Ok(u.(lastWriteTime := Some(MTIMES_2)))
  {
    Stamps2Bytes();
    FilesInfo.ApplyLastWriteTimeAllDefined(u, MTIMES_2);
  }

  lemma ApplyAttributes2(u: FilesInfo.FilesInfo)
    requires u.numFiles == 4
    ensures FilesInfo.Apply(u, Records.Record(Property.ATTRIBUTES, ATTRIBUTES_DATA_2)) == Ok(u.(attributes := Some(ATTRIBUTES_2)))
  {
    Attributes2Bytes();
    FilesInfo.ApplyAttributesAllDefined(u, ATTRIBUTES_2);
  }

  lemma Records2Bytes()
    ensures Records.RecordBytes(Records.Record(Property.NAME, NAMES_DATA_2)) == NAMES_RECORD_2
    ensures Records.RecordBytes(Records.Record(Property.LAST_WRITE_TIME, MTIME_DATA_2)) == MTIME_RECORD_2
    ensures Records.RecordBytes(Records.Record(Property.ATTRIBUTES, ATTRIBUTES_DATA_2)) == ATTRIBUTES_RECORD_2
  {
    ShortRecord(Property.NAME, NAMES_DATA_2);
    ShortRecord(Property.LAST_WRITE_TIME, MTIME_DATA_2);
    ShortRecord(Property.ATTRIBUTES, ATTRIBUTES_DATA_2);
  }

  /** `FilesInfo.retrieve` on the section: four files, each with its name,
      last-write time and attributes. */
  lemma ReadFiles2(rest: seq<byte>)
    ensures FilesInfo.Parse(FILES_BYTES_2 + rest) == Ok((FILES_2, rest))
  {
    var r1 := Records.Record(Property.NAME, NAMES_DATA_2);
    var r2 := Records.Record(Property.LAST_WRITE_TIME, MTIME_DATA_2);
    var r3 := Records.Record(Property.ATTRIBUTES, ATTRIBUTES_DATA_2);
    var u0 := FilesInfo.Empty(4);
    var u1 := u0.(names := Some(NAMES_2));
    var u2 := u1.(lastWriteTime := Some(MTIMES_2));
    ApplyNames2(u0);
    ApplyMTimes2(u1);
    ApplyAttributes2(u2);
    Records2Bytes();
    ThreeRecords(r1, r2, r3, u0, u1, u2, FILES_2, rest);
    Files2Split(rest);
    CountThenRecords(4, NAMES_RECORD_2 + (MTIME_RECORD_2 + (ATTRIBUTES_RECORD_2 + ([0x00] + rest))), FILES_2, rest);
  }

  lemma Files2Split(rest: seq<byte>)
    ensures FILES_BYTES_2 + rest == [0x04] + (NAMES_RECORD_2 + (MTIME_RECORD_2 + (ATTRIBUTES_RECORD_2 + ([0x00] + rest))))
  {
    var c := ATTRIBUTES_RECORD_2 + [0x00];
    var b := MTIME_RECORD_2 + c;
    var a := NAMES_RECORD_2 + b;
    AppendAssoc([0x04], a, rest);
    AppendAssoc(NAMES_RECORD_2, b, rest);
    AppendAssoc(MTIME_RECORD_2, c, rest);
    AppendAssoc(ATTRIBUTES_RECORD_2, [0x00], rest);
  }

  /** The file list of the section: four files, their names, and attributes
      0x2020 for each. */
  lemma Files2List()
    ensures FilesInfo.Valid(FILES_2) && |FilesInfo.Files(FILES_2)| == 4
    ensures FilesInfo.Files(FILES_2)[0].name == Some("copying.txt")
    ensures FilesInfo.Files(FILES_2)[1].name == Some("History.txt")
    ensures FilesInfo.Files(FILES_2)[2].name == Some("License.txt")
    ensures FilesInfo.Files(FILES_2)[3].name == Some("readme.txt")
    ensures forall i | 0 <= i < 4 :: FilesInfo.Files(FILES_2)[i].attributes == Some(0x2020)
  {
    Names2Storable();
  }
}
