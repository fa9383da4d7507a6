# py7zr header codec in Dafny

This project models the binary header codec of py7zr, a reader and writer for the 7z
archive format. It covers these parts:

- **Variable-length integer.** `VarInt`: L leading one-bits in the first byte announce L
  more bytes, big-endian as py7zr writes them.
- **Bit vector.** `BitVector`: MSB-first packing, the 0x00 "explicit vector follows" marker
  byte on write, and the 0x01 "all defined" shortcut on read.
- **Little-endian fields and digest lists.** `Io`.
- **Signature header.** `Signature`: the 32-byte prologue.
- **Archive properties.** `ArchiveProperties`: the 0x02 section.
- **Streams-info family.** `PackInfo`, `Folders` (coders and bind pairs), `UnpackInfo`,
  `SubStreams` and `StreamsInfo`.
- **Columnar files info.** `FilesInfo` with `Records` and `Utf16`.
- **Header.** `Header`, with the kHeader (0x01) and kEncodedHeader (0x17) dispatch.

Each reader exists in two forms:

- a pure parser over a byte sequence, `P(s): Result<(T, seq<byte>)>`, which returns the
  bytes it did not consume;
- an imperative method on the `BytesIO.ByteReader` cursor class, proved to follow that
  parser. The cursor ends where the parser stops, and the method returns the same value or
  the same error.

The writers append to the `BytesIO.ByteWriter` buffer class in loops and are proved to
append exactly the bytes of a serialization function. Every section has a round-trip lemma,
`Parse(Serialized(x) + rest) == Ok((x, rest))`, under the section's validity predicate.

The byte vectors of the two test files are discharged as lemmas:

- the `encode_uint64` table and the `write_boolean` and `PackInfo.write` vectors, in
  `Vectors`;
- the two files-info payloads, in `FilesVectors`;
- the main-streams payload, the full plain header of `solid.7z` and the encoded header of
  `test_5.7z`, in `HeaderVectors`.

The property ids follow 7-Zip's `7zFormat.txt`:

| id | name |
|---|---|
| 0x00 | END |
| 0x01 | kHeader |
| 0x02 | kArchiveProperties |
| 0x03 | kAdditionalStreamsInfo |
| 0x04 | kMainStreamsInfo |
| 0x05 | kFilesInfo |
| 0x06 | kPackInfo |
| 0x07 | kUnPackInfo |
| 0x08 | kSubStreamsInfo |
| 0x09 | kSize |
| 0x0A | kCRC |
| 0x0B | kFolder |
| 0x0C | kCodersUnPackSize |
| 0x0D | kNumUnPackStream |
| 0x0E | kEmptyStream |
| 0x0F | kEmptyFile |
| 0x10 | kAnti |
| 0x11 | kName |
| 0x12 | kCTime |
| 0x13 | kATime |
| 0x14 | kMTime |
| 0x15 | kWinAttributes |
| 0x17 | kEncodedHeader |

The implementation modules `py7zr/io.py` and `py7zr/archiveinfo.py` are not part of this
model. Their behaviour is fixed by the byte vectors of `py7zr/tests/test_unit.py` and
`py7zr/tests/test_compress.py`, which the rows below cite. The grammar between the vectors
follows the 7z format description. Where the two disagree, the model follows the vectors:

- the extra bytes of a varint are big-endian, as in every `encode_uint64` vector (7-Zip
  itself stores them little-endian);
- `write_boolean` with `all_defined` set emits a 0x00 marker byte.

## Model

| member | source | states |
|---|---|---|
| VarInt.Encode | py7zr/tests/test_compress.py:14-21 | between 1 and 9 bytes; a value below 0x80 is the single byte itself |
| VarInt.EncodeAnnouncesLength | py7zr/tests/test_compress.py:15-19 | the leading one-bits of the first byte count the bytes that follow it |
| VarInt.ExtraLengthIsLeast | py7zr/tests/test_compress.py:15-17 | the number of extra bytes is the least one whose range holds the value (minimality) |
| VarInt.EncodeIsShortest | py7zr/tests/test_compress.py:15-17 | no byte string that decodes to v is shorter than `Encode(v)` |
| VarInt.DecodeEncode | py7zr/tests/test_compress.py:14-21 | decoding the encoding of any 64-bit value gives it back and leaves the following bytes unread |
| VarInt.EncodeDecode | py7zr/tests/test_compress.py:14-21 | a decoded byte string as short as the encoding of its value is that encoding followed by what was left, so the minimal form is unique |
| VarInt.DecodeSmall | py7zr/tests/test_compress.py:15 | a byte below 0x80 decodes to itself |
| VarInt.LimitOrder | py7zr/tests/test_compress.py:15-19 | more extra bytes hold strictly more values, and only then |
| Vectors.EncodeOneByte | py7zr/tests/test_compress.py:15 | 1 encodes to `01` and 127 to `7f` |
| Vectors.EncodeTwoThreeBytes | py7zr/tests/test_compress.py:15 | 128 encodes to `80 80` and 65535 to `c0 ff ff` |
| Vectors.EncodeFourFiveBytes | py7zr/tests/test_compress.py:16 | 0x7fffff encodes to `e0 7f ff ff` and 0xffffffff to `f0 ff ff ff ff` |
| Vectors.EncodeSixBytes | py7zr/tests/test_compress.py:17 | 0x7f1234567f encodes to `f8 7f 12 34 56 7f` |
| Vectors.EncodeEightBytes | py7zr/tests/test_compress.py:18 | 0x1234567890abcd encodes to `fe` and seven value bytes |
| Vectors.EncodeNineBytes | py7zr/tests/test_compress.py:19 | 0xcf1234567890abcd encodes to `ff` and eight value bytes |
| Io.WriteUInt64 | py7zr/tests/test_compress.py:20-21 | appends exactly `Encode(v)` to the buffer |
| Io.ReadUInt64 | py7zr/tests/test_compress.py:14-21 | the byte-by-byte reader returns what `VarInt.Decode` returns and leaves the cursor where it stops |
| Io.BigEndianValue | py7zr/tests/test_compress.py:14-21 | the byte loop computes the big-endian value of the digits after the length prefix |
| BitVector.Unpack | py7zr/tests/test_unit.py:127-132 | succeeds exactly when ceil(n/8) bytes are there, giving n booleans and consuming those bytes |
| BitVector.Read | py7zr/tests/test_unit.py:136-141 | returns `count` booleans and consumes at least one byte unless nothing was asked |
| BitVector.ReadAllDefined | py7zr/tests/test_unit.py:136-141 | the 0x01 shortcut reads as `count` true values and consumes one byte |
| BitVector.PackedElement | py7zr/tests/test_unit.py:127-132 | element 8q+r of a vector is bit r (MSB first) of byte q of its packing |
| BitVector.UnpackPack | py7zr/tests/test_unit.py:127-132 | unpacking a packed vector gives it back and leaves the following bytes unread |
| BitVector.ReadEncoded | py7zr/tests/test_unit.py:127-141 | what `write_boolean` emits, with or without the marker, reads back as the same vector |
| Io.WriteBoolean | py7zr/tests/test_unit.py:127-141 | the byte-at-a-time loop appends exactly the marker (when asked) and the packed vector |
| Vectors.WriteBooleans | py7zr/tests/test_unit.py:127-141 | `[T,F,T,T,F,T,F,F,T]` packs to `b4 80`, and to `00 b4 80` with the marker |
| Io.ReadBoolean | py7zr/tests/test_unit.py:136-141 | the reader follows `BitVector.Read` |
| Io.ReadBits | py7zr/tests/test_unit.py:127-132 | the bit-at-a-time loop follows `BitVector.Unpack` |
| Io.UInt32 | py7zr/tests/test_unit.py:14-16 | succeeds exactly on four bytes, which are the little-endian form of the value |
| Io.RealUInt64 | py7zr/tests/test_unit.py:14-16 | succeeds exactly on eight bytes, which are the little-endian form of the value |
| Io.UInt32RoundTrip | py7zr/tests/test_unit.py:14-16 | a little-endian u32 reads back |
| Io.RealUInt64RoundTrip | py7zr/tests/test_unit.py:14-16 | a little-endian u64 reads back |
| Io.ReadUInt32 | py7zr/tests/test_unit.py:14-16 | the reader follows `Io.UInt32` |
| Io.ReadRealUInt64 | py7zr/tests/test_unit.py:14-16 | the reader follows `Io.RealUInt64` |
| Io.UInt64sRoundTrip | py7zr/tests/test_unit.py:145-152 | a list of varints reads back as the list |
| Io.ReadUInt64s | py7zr/tests/test_unit.py:145-152 | the loop follows `Io.UInt64s` |
| Io.Digests | py7zr/tests/test_unit.py:25-26 | a digest list read has `count` entries and consumes input |
| Io.DigestsRoundTrip | py7zr/tests/test_unit.py:25-26 | written digests read back, the undefined ones as `None` |
| Io.DigestsAllDefined | py7zr/tests/test_unit.py:25-26 | 0x01 then one CRC per entry reads back when every entry is defined |
| Io.DigestsAfter | py7zr/tests/test_unit.py:25-26 | after kCRC a list follows; after END there is none; any other id is an error |
| Io.DigestsEnd | py7zr/tests/test_unit.py:25-26 | an id other than kCRC or END is refused with that id |
| Io.DigestsEndAllDefined | py7zr/tests/test_unit.py:25-26 | kCRC, the all-defined byte, the CRCs and END read as those CRCs |
| Io.DigestsEndRoundTrip | py7zr/tests/test_unit.py:25-26 | an optional CRC block followed by END reads back |
| Io.ReadDigests | py7zr/tests/test_unit.py:25-26 | the loop follows `Io.Digests` |
| Io.ReadDigestsEnd | py7zr/tests/test_unit.py:25-26 | the reader follows `Io.DigestsEnd` |
| Io.WriteDigests | py7zr/tests/test_unit.py:25-26 | the loop appends the defined vector and each defined CRC |
| Io.WriteUInt32 | py7zr/tests/test_unit.py:14-16 | appends the four little-endian bytes |
| BytesIO.Take | py7zr/tests/test_unit.py:15-17 | succeeds exactly when n bytes are there and splits the input at n |
| BytesIO.TakeByte | py7zr/tests/test_unit.py:27 | succeeds exactly on a non-empty input and splits off its first byte |
| BytesIO.ByteReader.Read | py7zr/tests/test_unit.py:27 | `read(n)` returns the next n bytes and moves the cursor past them; a short read is `Truncated` (see "## Left out") |
| BytesIO.ByteReader.ReadByte | py7zr/tests/test_unit.py:27-29 | `read(1)` returns the next byte and moves the cursor one byte |
| BytesIO.ByteWriter.Write | py7zr/tests/test_unit.py:149-151 | appends the bytes to the buffer |
| BytesIO.ByteWriter.WriteByte | py7zr/tests/test_unit.py:149-151 | appends one byte to the buffer |
| Property.Expect | py7zr/tests/test_unit.py:27-28 | succeeds exactly when the next byte is the expected id; otherwise the error names the byte found |
| Signature.Parse | py7zr/tests/test_unit.py:14-20 | succeeds exactly on 32 bytes or more and consumes exactly 32 |
| Signature.ParseFields | py7zr/tests/test_unit.py:19-20 | magic and version are bytes 0-5 and 6-7; the start-header CRC, the next-header offset, size and CRC are the little-endian fields at bytes 8-11, 12-19, 20-27 and 28-31 |
| Signature.ParseSerialized | py7zr/tests/test_unit.py:14-20 | a header with a six-byte magic reads back from its 32 bytes |
| Signature.SerializedParse | py7zr/tests/test_unit.py:14-20 | any 32 bytes read are the serialization of what was read, so nothing is lost |
| Signature.Retrieve | py7zr/tests/test_unit.py:17 | `SignatureHeader.retrieve` on the cursor follows `Signature.Parse` |
| Vectors.ReadSignature | py7zr/tests/test_unit.py:14-20 | the test prologue reads with version (0, 2) and next-header offset 160 |
| Vectors.PrologueBytes | py7zr/tests/test_unit.py:15-16 | the expected header serializes to the 32 test bytes |
| PackInfo.Parse | py7zr/tests/test_unit.py:25 | a pack info that reads is valid (one digest slot per stream) and consumes input |
| PackInfo.Retrieve | py7zr/tests/test_unit.py:25 | the reader follows `PackInfo.Parse` |
| PackInfo.Write | py7zr/tests/test_unit.py:145-152 | `PackInfo.write` appends the position, the count, kSize and the sizes, any CRC block, then END |
| PackInfo.ParseSerialized | py7zr/tests/test_unit.py:145-152 | a valid pack info reads back from what `write` emits |
| Vectors.WritePackInfo | py7zr/tests/test_unit.py:145-152 | packpos 0x02345678 with sizes 0x1234, 0x3456 and 0x5678 serializes to `e2345678 03 09 9234 b456 c05678 00` |
| Vectors.PackSizesBytes | py7zr/tests/test_unit.py:148-152 | the three sizes encode to `92 34 b4 56 c0 56 78` |
| ArchiveProperties.Parse | py7zr/tests/test_unit.py:116-122 | reads only after the 0x02 id, which it checks itself; any other first byte is refused with that byte |
| ArchiveProperties.ItemsKinds | py7zr/tests/test_unit.py:116-122 | no record read has the END byte for its type |
| ArchiveProperties.Retrieve | py7zr/tests/test_unit.py:121 | the loop on the cursor follows `ArchiveProperties.Parse` |
| Vectors.ReadArchiveProperties | py7zr/tests/test_unit.py:116-122 | `02 07 01 23 00` reads as one record whose data is `(0x23,)` |
| ArchiveProperties.WriteAsWritten | py7zr/tests/test_compress.py:47-60 | `ArchiveProperties.write` appends 0x02, then a length and the bytes for each chunk, then END |
| ArchiveProperties.AsWrittenBytes | py7zr/tests/test_compress.py:56-60 | one chunk `0123456789abcd` is written as `02 07 0123456789abcd 00` |
| ArchiveProperties.AsWrittenNotRetrieved | py7zr/tests/test_compress.py:56-60 | the reader rejects those bytes as truncated, so write and retrieve disagree |
| ArchiveProperties.Write | py7zr/tests/test_compress.py:47-60 | the corrected writer appends the type byte, length and data of each record |
| ArchiveProperties.ParseSerialized | py7zr/tests/test_unit.py:116-122 | what the corrected writer emits reads back as the same records |
| Records.Next | py7zr/tests/test_unit.py:67-70 | END ends the list; any other byte is a record of that kind with a varint length and that many bytes |
| Records.NextRecord | py7zr/tests/test_unit.py:67-70 | a written record reads back |
| Records.ReadNext | py7zr/tests/test_unit.py:67-70 | the reader follows `Records.Next` |
| Folders.Missing | py7zr/tests/test_unit.py:25 | lists, in ascending order, exactly the stream indices below n that no bind pair uses |
| Folders.MainOutputUnique | py7zr/tests/test_unit.py:25 | a well-formed folder has exactly one unbound output, and every other output is bound |
| Folders.ParseCoder | py7zr/tests/test_unit.py:25 | a coder's flags byte is below 0x40, and its low nibble is the id length |
| Folders.PackedStreams | py7zr/tests/test_unit.py:25 | a single packed stream is the lowest unbound input |
| Folders.Parse | py7zr/tests/test_unit.py:25 | a folder reads the coder count, the coders, TotalOut-1 bind pairs and the packed-stream indices |
| Folders.ParseWellFormed | py7zr/tests/test_unit.py:25 | every folder read is well formed: one terminal output and consistent stream counts |
| Folders.Retrieve | py7zr/tests/test_unit.py:25 | the staged reader methods follow `Folders.Parse` |
| Folders.ReadCoders | py7zr/tests/test_unit.py:25 | the coder loop follows `Folders.Coders` |
| Folders.ReadBindPairs | py7zr/tests/test_unit.py:25 | the bind-pair loop follows `Folders.BindPairs` |
| Folders.ReadPackedStreams | py7zr/tests/test_unit.py:25 | the packed-index loop follows `Folders.PackedStreams` |
| Folders.CoderRoundTrip | py7zr/tests/test_unit.py:25 | a written coder reads back |
| Folders.ParseSerialized | py7zr/tests/test_unit.py:25 | a well-formed folder reads back from its bytes |
| UnpackInfo.FolderSize | py7zr/tests/test_unit.py:25 | a folder's unpack size is the size listed for its output that no bind pair consumes |
| UnpackInfo.FolderSizes | py7zr/tests/test_unit.py:25 | one unpack size per folder, each the size of that folder's unbound output |
| SubStreams.NumDigestsBounds | py7zr/tests/test_unit.py:26 | the kCRC block holds at most one digest per substream, one for each when no folder has a CRC, none when each folder has a CRC and one substream |
| StreamsInfo.SubStreamDigestCount | py7zr/tests/test_unit.py:25-26 | the same digest count for the folder CRCs that the unpack info carries |
| UnpackInfo.Parse | py7zr/tests/test_unit.py:25 | an unpack info that reads is valid: well-formed folders, and one size per output |
| UnpackInfo.FolderListWellFormed | py7zr/tests/test_unit.py:25 | every folder in the list read is well formed |
| UnpackInfo.SizesShape | py7zr/tests/test_unit.py:25 | each folder gets one unpack size per coder output |
| UnpackInfo.Retrieve | py7zr/tests/test_unit.py:25 | the reader follows `UnpackInfo.Parse` |
| UnpackInfo.ReadFolders | py7zr/tests/test_unit.py:25 | the folder loop follows `UnpackInfo.FolderList` |
| UnpackInfo.ReadSizes | py7zr/tests/test_unit.py:25 | the size loop follows `UnpackInfo.Sizes` |
| UnpackInfo.ParseSerialized | py7zr/tests/test_unit.py:25 | a valid unpack info reads back from its bytes |
| SubStreams.ImpliedSizes | py7zr/tests/test_unit.py:26 | without kSize, the sizes exist only when every folder has at most one substream, and then they partition the folder sizes |
| SubStreams.StreamSizesPartition | py7zr/tests/test_unit.py:26 | each folder's substream sizes sum to its unpack size; the last size is implied |
| SubStreams.ParseValid | py7zr/tests/test_unit.py:26 | a substreams info that reads is valid for the folders it describes |
| SubStreams.SumOf | py7zr/tests/test_unit.py:26 | the loop computes the sum of the sizes |
| SubStreams.ReadStreamSizes | py7zr/tests/test_unit.py:26 | the size loop follows `SubStreams.StreamSizes` |
| SubStreams.Retrieve | py7zr/tests/test_unit.py:26 | the reader follows `SubStreams.Parse` |
| SubStreams.StreamSizesRoundTrip | py7zr/tests/test_unit.py:26 | written sizes, the implied last one left out, read back |
| SubStreams.ParseSerialized | py7zr/tests/test_unit.py:26 | a valid substreams info reads back from its bytes |
| StreamsInfo.Parse | py7zr/tests/test_unit.py:24-30 | pack info, unpack info and substreams info, each optional and in that order, then END |
| StreamsInfo.ParseValid | py7zr/tests/test_unit.py:24-30 | every streams info read is valid: its substreams fit its folders |
| StreamsInfo.Retrieve | py7zr/tests/test_unit.py:29 | `StreamsInfo.retrieve` on the cursor follows `StreamsInfo.Parse` |
| StreamsInfo.ParseSerialized | py7zr/tests/test_unit.py:24-30 | a valid streams info reads back from its bytes |
| HeaderVectors.MainUnpackValid | py7zr/tests/test_unit.py:25 | the test's folder is valid, with unpack size 0x42 and no folder CRC |
| HeaderVectors.ReadSubStreams | py7zr/tests/test_unit.py:26 | `0d 02 09 21 0a 01 <crc> <crc> 00` reads as two substreams of 0x21 bytes with both CRCs |
| HeaderVectors.ReadMainStreams | py7zr/tests/test_unit.py:24-30 | the main-streams payload after the 0x04 tag reads as the expected pack, folder and substream records, and they are valid |
| Utf16.CharUnits | py7zr/tests/test_unit.py:67-70 | a character is one unit, or a surrogate pair above 0xFFFF; only NUL gives a zero unit |
| Utf16.DecodeUnits | py7zr/tests/test_unit.py:67-70 | every name decodes back from its code units |
| Utf16.UnitsDecode | py7zr/tests/test_unit.py:67-70 | units that decode are exactly the units of the decoded name |
| Utf16.Name | py7zr/tests/test_unit.py:67-70 | a name read up to its zero unit has no NUL |
| Utf16.NameRoundTrip | py7zr/tests/test_unit.py:67-70 | a stored name, its units and then the zero unit, reads back |
| Utf16.ReadName | py7zr/tests/test_unit.py:67-70 | the unit-at-a-time loop follows `Utf16.Name` |
| FilesInfo.Whole | py7zr/tests/test_unit.py:67-70 | a property block must be consumed exactly; leftover bytes are `MalformedFilesInfo` |
| FilesInfo.NamesBlock | py7zr/tests/test_unit.py:67-70 | the names block gives one NUL-free name per file; an external flag is `Unsupported` |
| FilesInfo.Apply | py7zr/tests/test_unit.py:66-100 | a record fills its column, keeps the file count and validity, and a kind the reader does not know is skipped |
| FilesInfo.Parse | py7zr/tests/test_unit.py:73 | `FilesInfo.retrieve`: the file count, then the records up to END |
| FilesInfo.ParseValid | py7zr/tests/test_unit.py:66-100 | every files info read is valid: each column has one entry per file it covers |
| FilesInfo.Retrieve | py7zr/tests/test_unit.py:73 | the record loop on the cursor follows `FilesInfo.Parse` |
| FilesInfo.ReadNames | py7zr/tests/test_unit.py:67-70 | the name loop follows `FilesInfo.Names` |
| FilesInfo.ReadTimes | py7zr/tests/test_unit.py:69-70 | the timestamp reader follows `FilesInfo.TimesBlock` |
| FilesInfo.ReadAttributes | py7zr/tests/test_unit.py:85-87 | the attribute reader follows `FilesInfo.AttributesBlock` |
| FilesInfo.ApplyRecord | py7zr/tests/test_unit.py:66-100 | the method applying one record agrees with `FilesInfo.Apply` |
| FilesInfo.Files | py7zr/tests/test_unit.py:75-77 | the per-file view has `numfiles` entries; entry i carries name i, attribute i and the creation, last-access and last-write times i; an empty file or anti item has no stream |
| FilesInfo.StreamIndexOrder | py7zr/tests/test_unit.py:66-100 | files with a stream take the substreams in file order |
| FilesInfo.NamesColumn | py7zr/tests/test_unit.py:67-70 | NUL-free names, stored behind the external flag, read back |
| FilesInfo.TimesColumn | py7zr/tests/test_unit.py:69-70 | a timestamp column with its defined vector reads back |
| FilesInfo.TimesAllDefined | py7zr/tests/test_unit.py:69-70 | a column in the 0x01 all-defined form reads back when every time is present |
| FilesInfo.AttributesColumn | py7zr/tests/test_unit.py:85-87 | an attributes column with its defined vector reads back |
| FilesInfo.AttributesAllDefined | py7zr/tests/test_unit.py:85-87 | the all-defined form of the attributes reads back |
| FilesInfo.ParseSerialized | py7zr/tests/test_unit.py:66-100 | a writable files info reads back from its bytes |
| FilesVectors.Names1Bytes | py7zr/tests/test_unit.py:67-70 | `test`, `test1.txt` and `test/test2.txt` are stored as the test's UTF-16LE bytes |
| FilesVectors.ReadFiles1 | py7zr/tests/test_unit.py:66-74 | the first files-info payload reads as 3 files with those names, the empty-stream vector, the times and the attributes |
| FilesVectors.Files1List | py7zr/tests/test_unit.py:75-77 | its file list has 3 entries named `test`, `test1.txt` and `test/test2.txt` |
| FilesVectors.ReadFiles2 | py7zr/tests/test_unit.py:81-92 | the second payload reads as 4 files with their names, times and attributes |
| FilesVectors.Files2List | py7zr/tests/test_unit.py:93-100 | its entries are `copying.txt`, `History.txt`, `License.txt` and `readme.txt`, each with attributes 0x2020 |
| Property.Close | py7zr/tests/test_unit.py:24-43 | only END closes a section (streams info, header); any other id is refused with that id |
| Header.Plain | py7zr/tests/test_unit.py:36-43 | a plain header starts with 0x01, and any other first byte is refused with that byte |
| Header.Decode | py7zr/tests/test_unit.py:34-62 | `Header.retrieve` reads a 0x01 trailer as a plain header, and refuses ids other than 0x01 and 0x17 |
| Header.EncodedAsPlain | py7zr/tests/test_unit.py:52-62 | a 0x17 trailer gives what its unpacked bytes give as a plain header: the same header or the same error |
| Header.NoNestedEncoding | py7zr/tests/test_unit.py:52-62 | unpacked bytes that are themselves tagged 0x17 are refused rather than unpacked again |
| Header.DecompressFails | py7zr/tests/test_unit.py:52-62 | a failed unpacking is the reader's error |
| Header.Retrieve | py7zr/tests/test_unit.py:34-62 | `Header.retrieve` on the cursor follows `Header.Decode` |
| Header.RetrievePlain | py7zr/tests/test_unit.py:43 | the plain-header reader follows `Header.Plain` |
| Header.PlainSerialized | py7zr/tests/test_unit.py:36-43 | a header with valid sections reads back from its bytes |
| Header.EncodedSerialized | py7zr/tests/test_unit.py:52-62 | a 0x17 trailer whose streams unpack to a serialized header reads as that header |
| HeaderVectors.ReadPlainHeader | py7zr/tests/test_unit.py:36-43 | the 0x01 trailer of `solid.7z` reads as main streams and files info with nothing else |
| HeaderVectors.ReadHeader | py7zr/tests/test_unit.py:43-48 | `Header.retrieve` on that trailer gives main streams and files info, with numfiles 3 and 3 entries |
| HeaderVectors.ReadHeaderStreams | py7zr/tests/test_unit.py:55-56 | the streams info of the 0x17 trailer reads as one pack stream of 0x70 bytes at 0x30, and one LZMA folder of 0x9d bytes with its CRC |
| HeaderVectors.ReadEncodedHeader | py7zr/tests/test_unit.py:55-57 | the 0x17 trailer gives whatever the bytes it unpacks to give as a plain header |
| HeaderVectors.ReadEncodedSolidHeader | py7zr/tests/test_unit.py:57-62 | if it unpacks to the solid header, the result has main streams and files info, with numfiles 3 and 3 entries |

## Left out

- LZMA compression and decompression are left out: `SevenZipCompressor`, `SevenZipDecompressor`, the
  `lzma` filter chains and the coder-id to filter mapping. These are calls into an external
  library. The encoded-header path takes the decompressor as a function parameter.
- The unpacked header of `test_5.7z` is not modelled: it needs the archive file and LZMA.
  `HeaderVectors.ReadEncodedSolidHeader` assumes the decompressor yields the solid header.
- File opening and reading of `solid.7z` and `test_5.7z` are left out. Readers work on an
  in-memory byte sequence, and the cursor class stands for `io.BytesIO`.
- CRC32 and `calccrc` are left out. Stored CRCs are opaque four-byte fields. Nothing is compared
  against a computed CRC, so `CrcMismatch` does not arise.
- `Signature.Parse` does not check the magic or the version: `retrieve` in the test accepts
  the bytes as they are.
- The meaning of archive-property records is left out. A record keeps its type byte and raw
  bytes. The test's `(0x23,)` is the byte sequence `[0x23]`.
- Errors are one `Error` datatype, so the reader's exception types are not modelled. After an
  error the reader cursor's position is unconstrained; only the error itself is specified.
- External data blocks are left out: an external flag other than 0 in a files-info column
  returns `Unsupported`. So does a coder flags byte of 0x40 or above, which marks
  alternative methods.
- `FilesInfo.Parse` does not check that a name is a well-formed UTF-16 string beyond refusing
  lone surrogates, and it has no Unicode normalisation.
- `Header.Body` peeks at the first byte for 0x02 because the archive-properties reader reads
  its own tag. The other sections' tags are read by the enclosing reader.
- BytesIO.ByteReader.Read: a read of more bytes than remain is `Truncated`. `io.BytesIO.read`
  returns the shorter remainder instead, and py7zr fails later when it unpacks too few bytes,
  so the model reports the failure where the bytes run out and not where they are used.
- VarInt.Decode: accepts non-minimal encodings, such as `80 05` for 5; nothing in the format refuses them.
  `VarInt.EncodeDecode` proves uniqueness only for byte strings as short as the encoding.
- `PackInfo.Parse` requires the kSize list. A pack info without one is refused.
- `BitVector.Encoded` never emits the 0x01 all-defined shortcut, because `write_boolean` only
  writes the 0x00 marker. The reader accepts both forms, and the test vectors that use 0x01
  are proved in the reading direction (`FilesInfo.TimesAllDefined`, `Io.DigestsAllDefined`).
- The substreams info is read only in the order kNumUnPackStream, kSize, kCRC, END, each
  optional. Any other id among them, kDummy included, is refused.
- The writers for folders, unpack info, substreams, streams info, files info and the header
  exist only as serialization functions. Their round trips are proved, but they have no
  imperative write methods, because the source shows only `write_boolean`, `PackInfo.write`
  and `ArchiveProperties.write`.

## Findings

| source | as written | input that shows it | evidently intended | confidence | as-written member | corrected member |
|---|---|---|---|---|---|---|
| py7zr/tests/test_compress.py:47-60 and py7zr/tests/test_unit.py:116-122 | `ArchiveProperties.write` emits each chunk as a length and its bytes, with no type byte, while `ArchiveProperties.retrieve` reads a type byte, a length and the bytes | the chunk `0123456789abcd`, written as `02 07 0123456789abcd 00`: retrieve takes 0x07 as a type and 0x01 as a length, then 0x45 as a type and 0x67 as a length, and runs out of bytes | the writer emits the type byte the reader expects, so that retrieve(write(x)) == x | medium; not executed | ArchiveProperties.AsWrittenNotRetrieved | ArchiveProperties.ParseSerialized |
