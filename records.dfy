/** The property record shared by the archive-properties section and the
    files-info section: a non-END type byte, a variable-length size and that
    many bytes. A list of records is closed by END. */
module Records {
  import opened Bytes
  import opened BytesIO
  import VarInt
  import Io
  import Property

  /** Bytes whose length a variable-length integer can state. */
  type Chunk = c: seq<byte> | |c| < 0x1_0000_0000_0000_0000

  /** One record: its type byte and its bytes, kept verbatim. */
  datatype Record = Record(kind: byte, data: Chunk)

  // ---------------------------------------------------------------------------
  // Reading

  /** The next record, or `None` when the next byte is END. */
  function Next(s: seq<byte>): (r: Result<(Option<Record>, seq<byte>)>)
    ensures r.Ok? ==> |r.value.1| < |s|
    ensures r.Ok? ==> (r.value.0.None? <==> s[0] == Property.END)
    ensures r.Ok? && r.value.0.Some? ==> r.value.0.value.kind == s[0]
  {
    var kind :- TakeByte(s);
    if kind.0 == Property.END then Ok((None, kind.1))
    else
      var size :- VarInt.Decode(kind.1);
      var data :- Take(size.1, size.0);
      Ok((Some(Record(kind.0, data.0)), data.1))
  }

  /** The type byte, `read_uint64` for the size, then `read(size)`. */
  method ReadNext(f: ByteReader) returns (res: Result<Option<Record>>)
    modifies f
    ensures f.Follows(res, Next(old(f.rest)))
  {
    var kind :- f.ReadByte();
    if kind == Property.END {
      return Ok(None);
    }
    var size :- Io.ReadUInt64(f);
    var data :- f.Read(size);
    return Ok(Some(Record(kind, data)));
  }

  // ---------------------------------------------------------------------------
  // Writing

  function RecordBytes(r: Record): seq<byte>
  {
    [r.kind] + (VarInt.Encode(|r.data|) + r.data)
  }

  function RecordsBytes(rs: seq<Record>): seq<byte>
  {
    if rs == [] then [] else RecordBytes(rs[0]) + RecordsBytes(rs[1..])
  }

  /** Records that END does not cut short. */
  predicate Writable(rs: seq<Record>)
  {
    forall i | 0 <= i < |rs| :: rs[i].kind != Property.END
  }

  lemma RecordsBytesCons(rs: seq<Record>, rest: seq<byte>)
    requires rs != []
    ensures RecordsBytes(rs) + rest == RecordBytes(rs[0]) + (RecordsBytes(rs[1..]) + rest)
  {
  }

  lemma {:induction false} RecordsBytesSnoc(rs: seq<Record>, r: Record)
    ensures RecordsBytes(rs + [r]) == RecordsBytes(rs) + RecordBytes(r)
    decreases |rs|
  {
    if rs == [] {
      assert [] + [r] == [r];
    } else {
      assert (rs + [r])[1..] == rs[1..] + [r];
      RecordsBytesSnoc(rs[1..], r);
    }
  }

  // ---------------------------------------------------------------------------
  // Round trip

  /** A record written with its type byte and size reads back whole, and the
      bytes after it are left unread. */
  lemma NextRecord(r: Record, rest: seq<byte>)
    requires r.kind != Property.END
    ensures Next(RecordBytes(r) + rest) == Ok((Some(r), rest))
  {
    var tail := r.data + rest;
    assert RecordBytes(r) + rest == [r.kind] + (VarInt.Encode(|r.data|) + tail);
    TakeByteCons(r.kind, VarInt.Encode(|r.data|) + tail);
    VarInt.DecodeEncode(|r.data|, tail);
    TakeAppend(r.data, rest);
  }

  /** END closes the list and is consumed. */
  lemma NextEnd(rest: seq<byte>)
    ensures Next([Property.END] + rest) == Ok((None, rest))
  {
    TakeByteCons(Property.END, rest);
  }
}
