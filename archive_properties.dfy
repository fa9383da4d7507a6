/** The archive-properties section (`ArchiveProperties`): after the 0x02 tag, a
    list of opaque property records, each a type byte, a length and that many
    bytes, closed by END. */
module ArchiveProperties {
  import opened Bytes
  import opened BytesIO
  import opened Records
  import VarInt
  import Io
  import Property

  // ---------------------------------------------------------------------------
  // Reading

  /** The records up to and including the END byte, appended to `acc`. Each
      record's `data` is what `property_data` holds for it. */
  function Items(s: seq<byte>, acc: seq<Record>): (r: Result<(seq<Record>, seq<byte>)>)
    ensures r.Ok? ==> |r.value.1| < |s|
    decreases |s|
  {
    var next :- Next(s);
    if next.0.None? then Ok((acc, next.1))
    else Items(next.1, acc + [next.0.value])
  }

  /** The records read extend `acc`, and none of them has the END byte for its
      type: END always closes the list. */
  lemma {:induction false} ItemsKinds(s: seq<byte>, acc: seq<Record>)
    requires Items(s, acc).Ok?
    ensures acc <= Items(s, acc).value.0
    ensures Writable(Items(s, acc).value.0[|acc|..])
    decreases |s|
  {
    var next := Next(s).value;
    if next.0.Some? {
      ItemsKinds(next.1, acc + [next.0.value]);
      KindsStep(acc, next.0.value, Items(s, acc).value.0);
    }
  }

  lemma KindsStep(acc: seq<Record>, it: Record, items: seq<Record>)
    requires it.kind != Property.END
    requires acc + [it] <= items && Writable(items[|acc| + 1..])
    ensures acc <= items && Writable(items[|acc|..])
  {
    assert items[|acc|..] == [it] + items[|acc| + 1..];
  }

  /** `ArchiveProperties.retrieve`: the section tag, then the records. */
  function Parse(s: seq<byte>): (r: Result<(seq<Record>, seq<byte>)>)
    ensures r.Ok? ==> |s| > 0 && s[0] == Property.ARCHIVE_PROPERTIES
    ensures |s| > 0 && s[0] != Property.ARCHIVE_PROPERTIES ==> r == Err(UnexpectedProperty(s[0]))
    ensures r.Ok? ==> |r.value.1| < |s| - 1
  {
    var t :- Property.Expect(s, Property.ARCHIVE_PROPERTIES);
    Items(t, [])
  }

  /** `ArchiveProperties.retrieve` on a reader. */
  method Retrieve(f: ByteReader) returns (res: Result<seq<Record>>)
    modifies f
    ensures f.Follows(res, Parse(old(f.rest)))
  {
    var tag :- f.ReadByte();
    if tag != Property.ARCHIVE_PROPERTIES {
      return Err(UnexpectedProperty(tag));
    }
    var items: seq<Record> := [];
    while true
      invariant Items(f.rest, items) == Parse(old(f.rest))
      decreases |f.rest|
    {
      var next :- ReadNext(f);
      if next.None? {
        return Ok(items);
      }
      items := items + [next.value];
    }
  }

  // ---------------------------------------------------------------------------
  // Writing, as the section writer does it: no type byte per record

  function ChunksBytes(chunks: seq<Chunk>): seq<byte>
  {
    if chunks == [] then []
    else VarInt.Encode(|chunks[0]|) + chunks[0] + ChunksBytes(chunks[1..])
  }

  /** What `ArchiveProperties.write` emits for `property_data`: the section tag,
      then each chunk behind its length, then END. */
  function AsWritten(chunks: seq<Chunk>): seq<byte>
  {
    [Property.ARCHIVE_PROPERTIES] + ChunksBytes(chunks) + [Property.END]
  }

  /** `ArchiveProperties.write`. */
  method WriteAsWritten(f: ByteWriter, chunks: seq<Chunk>)
    modifies f
    ensures f.buf == old(f.buf) + AsWritten(chunks)
  {
    f.WriteByte(Property.ARCHIVE_PROPERTIES);
    ghost var start := f.buf;
    var i := 0;
    while i < |chunks|
      invariant i <= |chunks|
      invariant f.buf == start + ChunksBytes(chunks[..i])
    {
      ChunksBytesStep(start, chunks, i);
      Io.WriteUInt64(f, |chunks[i]|);
      f.Write(chunks[i]);
      i := i + 1;
    }
    assert chunks[..i] == chunks;
    f.WriteByte(Property.END);
  }

  lemma ChunksBytesStep(start: seq<byte>, chunks: seq<Chunk>, i: nat)
    requires i < |chunks|
    ensures start + ChunksBytes(chunks[..i + 1])
      == start + ChunksBytes(chunks[..i]) + VarInt.Encode(|chunks[i]|) + chunks[i]
  {
    assert chunks[..i + 1] == chunks[..i] + [chunks[i]];
    ChunksBytesSnoc(chunks[..i], chunks[i]);
    var p, e := ChunksBytes(chunks[..i]), VarInt.Encode(|chunks[i]|);
    assert start + p + (e + chunks[i]) == start + p + e + chunks[i];
  }

  lemma {:induction false} ChunksBytesSnoc(chunks: seq<Chunk>, c: Chunk)
    ensures ChunksBytes(chunks + [c]) == ChunksBytes(chunks) + (VarInt.Encode(|c|) + c)
    decreases |chunks|
  {
    if chunks == [] {
      assert [] + [c] == [c];
    } else {
      assert (chunks + [c])[1..] == chunks[1..] + [c];
      ChunksBytesSnoc(chunks[1..], c);
    }
  }

  /** The chunk of the section writer's own example. */
  const CHUNK: Chunk := [0x01, 0x23, 0x45, 0x67, 0x89, 0xab, 0xcd]

  lemma AsWrittenBytes()
    ensures AsWritten([CHUNK]) == [0x02, 0x07, 0x01, 0x23, 0x45, 0x67, 0x89, 0xab, 0xcd, 0x00]
  {
    assert ChunksBytes([CHUNK]) == [0x07] + CHUNK;
  }

  /** The section writer's output for one 7-byte chunk is `02 07 <chunk> 00`,
      and the section reader cannot read it back: it takes the length byte 0x07
      for a type byte and the chunk's first byte for a length, then the chunk's
      0x45 for the next type byte and 0x67 for its length, and asks for 0x67
      bytes where four are left. */
  lemma AsWrittenNotRetrieved()
    ensures AsWritten([CHUNK]) == [0x02, 0x07, 0x01, 0x23, 0x45, 0x67, 0x89, 0xab, 0xcd, 0x00]
    ensures Parse(AsWritten([CHUNK])) == Err(Truncated)
  {
    AsWrittenBytes();
    var w: seq<byte> := [0x89, 0xab, 0xcd, 0x00];
    var u: seq<byte> := [0x45] + ([0x67] + w);
    assert AsWritten([CHUNK]) == [0x02] + ([0x07] + ([0x01] + ([0x23] + u)));
    MisreadFirst(u);
    MisreadSecond(w, [Record(0x07, [0x23])]);
  }

  /** The length byte read as a type byte, and the first chunk byte as a length. */
  lemma MisreadFirst(u: seq<byte>)
    ensures Parse([0x02] + ([0x07] + ([0x01] + ([0x23] + u))))
      == Items(u, [Record(0x07, [0x23])])
  {
    var it := Record(0x07, [0x23]);
    var t := [0x07] + ([0x01] + ([0x23] + u));
    Property.ExpectCons(0x02, t);
    assert RecordBytes(it) + u == t;
    NextRecord(it, u);
    assert Items(t, []) == Items(u, [] + [it]);
    assert [] + [it] == [it];
  }

  /** A length of 0x67 with four bytes left. */
  lemma MisreadSecond(w: seq<byte>, acc: seq<Record>)
    requires |w| == 4
    ensures Items([0x45] + ([0x67] + w), acc) == Err(Truncated)
  {
    TakeByteCons(0x45, [0x67] + w);
    VarInt.DecodeSmall(0x67, w);
  }

  // ---------------------------------------------------------------------------
  // Writing with a type byte per record, the layout the reader expects

  /** The section with each record's type byte before its length. */
  function Serialized(items: seq<Record>): seq<byte>
  {
    [Property.ARCHIVE_PROPERTIES] + (RecordsBytes(items) + [Property.END])
  }

  /** Appends the section for `items`, type byte, length and data per record. */
  method Write(f: ByteWriter, items: seq<Record>)
    modifies f
    ensures f.buf == old(f.buf) + Serialized(items)
  {
    f.WriteByte(Property.ARCHIVE_PROPERTIES);
    ghost var start := f.buf;
    var i := 0;
    while i < |items|
      invariant i <= |items|
      invariant f.buf == start + RecordsBytes(items[..i])
    {
      ItemsBytesStep(start, items, i);
      f.WriteByte(items[i].kind);
      Io.WriteUInt64(f, |items[i].data|);
      f.Write(items[i].data);
      i := i + 1;
    }
    assert items[..i] == items;
    f.WriteByte(Property.END);
    assert start + RecordsBytes(items) + [Property.END] == start + (RecordsBytes(items) + [Property.END]);
  }

  lemma ItemsBytesStep(start: seq<byte>, items: seq<Record>, i: nat)
    requires i < |items|
    ensures start + RecordsBytes(items[..i + 1])
      == start + RecordsBytes(items[..i]) + [items[i].kind] + VarInt.Encode(|items[i].data|) + items[i].data
  {
    assert items[..i + 1] == items[..i] + [items[i]];
    RecordsBytesSnoc(items[..i], items[i]);
    var p, e := RecordsBytes(items[..i]), VarInt.Encode(|items[i].data|);
    assert start + p + ([items[i].kind] + (e + items[i].data)) == start + p + [items[i].kind] + e + items[i].data;
  }

  // ---------------------------------------------------------------------------
  // Round trip

  /** The records written with their type bytes read back, END included, and
      the bytes after END are left unread. */
  lemma {:induction false} ItemsRoundTrip(items: seq<Record>, rest: seq<byte>, acc: seq<Record>)
    requires Writable(items)
    ensures Items(RecordsBytes(items) + ([Property.END] + rest), acc) == Ok((acc + items, rest))
    decreases |items|
  {
    if items == [] {
      ItemsNone(items, rest, acc);
    } else {
      ItemsRoundTrip(items[1..], rest, acc + [items[0]]);
      ItemsHead(items, rest, acc);
    }
  }

  lemma ItemsNone(items: seq<Record>, rest: seq<byte>, acc: seq<Record>)
    requires items == []
    ensures Items(RecordsBytes(items) + ([Property.END] + rest), acc) == Ok((acc + items, rest))
  {
    assert RecordsBytes(items) + ([Property.END] + rest) == [Property.END] + rest;
    NextEnd(rest);
    assert acc + items == acc;
  }

  /** The first record reads back, and the others follow it. */
  lemma ItemsHead(items: seq<Record>, rest: seq<byte>, acc: seq<Record>)
    requires items != [] && items[0].kind != Property.END
    requires Items(RecordsBytes(items[1..]) + ([Property.END] + rest), acc + [items[0]])
      == Ok((acc + [items[0]] + items[1..], rest))
    ensures Items(RecordsBytes(items) + ([Property.END] + rest), acc) == Ok((acc + items, rest))
  {
    RecordsBytesCons(items, [Property.END] + rest);
    NextRecord(items[0], RecordsBytes(items[1..]) + ([Property.END] + rest));
    Io.AppendHead(acc, items);
  }

  /** The section written with type bytes reads back as the same records. */
  lemma ParseSerialized(items: seq<Record>, rest: seq<byte>)
    requires Writable(items)
    ensures Parse(Serialized(items) + rest) == Ok((items, rest))
  {
    var tail := RecordsBytes(items) + ([Property.END] + rest);
    assert Serialized(items) + rest == [Property.ARCHIVE_PROPERTIES] + tail;
    Property.ExpectCons(Property.ARCHIVE_PROPERTIES, tail);
    ItemsRoundTrip(items, rest, []);
    assert [] + items == items;
  }
}
