/** The archive's trailer (`Header`): optional archive properties, optional
    additional streams, optional main streams and optional files info, each
    behind its tag and in that order, closed by END.

    A trailer tagged ENCODED_HEADER holds instead a streams info saying where
    the real header is packed; unpacking it is the coder pipeline's job and is
    a parameter here. The unpacked bytes are read as a plain header, so the
    two steps are two entry points and neither calls the other. */
module Header {
  import opened Bytes
  import opened BytesIO
  import Property
  import Records
  import ArchiveProperties
  import StreamsInfo
  import FilesInfo

  datatype Header = Header(
    properties: Option<seq<Records.Record>>,
    additionalStreams: Option<StreamsInfo.StreamsInfo>,
    mainStreams: Option<StreamsInfo.StreamsInfo>,
    filesInfo: Option<FilesInfo.FilesInfo>)

  /** What unpacks the real header from the streams an encoded header
      describes; it fails with `DecompressionFailed` or another error. */
  type Decompressor = StreamsInfo.StreamsInfo -> Result<seq<byte>>

  // ---------------------------------------------------------------------------
  // Reading

  /** The header after its HEADER tag. The archive properties section reads
      its own tag, so it is looked at before it is read. */
  function Body(s: seq<byte>): (r: Result<(Header, seq<byte>)>)
    ensures r.Ok? ==> |r.value.1| < |s|
  {
    if |s| > 0 && s[0] == Property.ARCHIVE_PROPERTIES then
      var p :- ArchiveProperties.Parse(s);
      AfterProperties(Some(p.0), p.1)
    else
      AfterProperties(None, s)
  }

  /** The additional streams, if the next tag announces them. */
  function AfterProperties(props: Option<seq<Records.Record>>, s: seq<byte>): (r: Result<(Header, seq<byte>)>)
    ensures r.Ok? ==> |r.value.1| < |s|
  {
    var pid :- TakeByte(s);
    if pid.0 == Property.ADDITIONAL_STREAMS_INFO then
      var a :- StreamsInfo.Parse(pid.1);
      var next :- TakeByte(a.1);
      AfterAdditional(props, Some(a.0), next.0, next.1)
    else
      AfterAdditional(props, None, pid.0, pid.1)
  }

  /** The main streams, if `pid` announces them. */
  function AfterAdditional(props: Option<seq<Records.Record>>, add: Option<StreamsInfo.StreamsInfo>,
                           pid: byte, s: seq<byte>): (r: Result<(Header, seq<byte>)>)
    ensures r.Ok? ==> |r.value.1| <= |s|
  {
    if pid == Property.MAIN_STREAMS_INFO then
      var m :- StreamsInfo.Parse(s);
      var next :- TakeByte(m.1);
      AfterMain(props, add, Some(m.0), next.0, next.1)
    else
      AfterMain(props, add, None, pid, s)
  }

  /** The files info, if `pid` announces it, then END. */
  function AfterMain(props: Option<seq<Records.Record>>, add: Option<StreamsInfo.StreamsInfo>,
                     main: Option<StreamsInfo.StreamsInfo>, pid: byte, s: seq<byte>): (r: Result<(Header, seq<byte>)>)
    ensures r.Ok? ==> |r.value.1| <= |s|
  {
    if pid == Property.FILES_INFO then
      var fi :- FilesInfo.Parse(s);
      var next :- TakeByte(fi.1);
      Property.Close(Header(props, add, main, Some(fi.0)), next.0, next.1)
    else
      Property.Close(Header(props, add, main, None), pid, s)
  }

  /** A plain header: the HEADER tag, then the body. */
  function Plain(s: seq<byte>): (r: Result<(Header, seq<byte>)>)
    ensures r.Ok? ==> |s| > 0 && s[0] == Property.HEADER && |r.value.1| < |s| - 1
    ensures |s| > 0 && s[0] != Property.HEADER ==> r == Err(UnexpectedProperty(s[0]))
  {
    var t :- Property.Expect(s, Property.HEADER);
    Body(t)
  }

  /** `Header.retrieve`: a plain header is read in place; an encoded one is a
      streams info, whose unpacked bytes must hold a plain header. The bytes
      left are those after the trailer's own contents. */
  function Decode(s: seq<byte>, decompress: Decompressor): (r: Result<(Header, seq<byte>)>)
    ensures |s| > 0 && s[0] == Property.HEADER ==> r == Plain(s)
    ensures |s| > 0 && s[0] != Property.HEADER && s[0] != Property.ENCODED_HEADER ==> r == Err(UnexpectedProperty(s[0]))
    ensures r.Ok? ==> |r.value.1| < |s|
  {
    var tag :- TakeByte(s);
    if tag.0 == Property.HEADER then Plain(s)
    else if tag.0 == Property.ENCODED_HEADER then
      var si :- StreamsInfo.Parse(tag.1);
      var data :- decompress(si.0);
      var h :- Plain(data);
      Ok((h.0, si.1))
    else Err(UnexpectedProperty(tag.0))
  }

  /** Reading an encoded header gives whatever the plain header it unpacks to
      gives: the same header, or the same error. */
  lemma EncodedAsPlain(s: seq<byte>, decompress: Decompressor, si: StreamsInfo.StreamsInfo, rest: seq<byte>, data: seq<byte>)
    requires StreamsInfo.Parse(s) == Ok((si, rest)) && decompress(si) == Ok(data)
    ensures Plain(data).Ok? ==> Decode([Property.ENCODED_HEADER] + s, decompress) == Ok((Plain(data).value.0, rest))
    ensures Plain(data).Err? ==> Decode([Property.ENCODED_HEADER] + s, decompress) == Err(Plain(data).error)
  {
    TakeByteCons(Property.ENCODED_HEADER, s);
  }

  /** An encoded header whose unpacked bytes are themselves tagged
      ENCODED_HEADER is refused rather than unpacked again. */
  lemma NoNestedEncoding(s: seq<byte>, decompress: Decompressor, si: StreamsInfo.StreamsInfo, rest: seq<byte>, data: seq<byte>)
    requires StreamsInfo.Parse(s) == Ok((si, rest)) && decompress(si) == Ok(data)
    requires |data| > 0 && data[0] == Property.ENCODED_HEADER
    ensures Decode([Property.ENCODED_HEADER] + s, decompress) == Err(UnexpectedProperty(Property.ENCODED_HEADER))
  {
    EncodedAsPlain(s, decompress, si, rest, data);
  }

  /** A failed unpacking is the reader's failure. */
  lemma DecompressFails(s: seq<byte>, decompress: Decompressor, si: StreamsInfo.StreamsInfo, rest: seq<byte>)
    requires StreamsInfo.Parse(s) == Ok((si, rest)) && decompress(si).Err?
    ensures Decode([Property.ENCODED_HEADER] + s, decompress) == Err(decompress(si).error)
  {
    TakeByteCons(Property.ENCODED_HEADER, s);
  }

  // ---------------------------------------------------------------------------
  // Reading from a reader

  /** The header after its HEADER tag, on a reader. */
  method ReadBody(f: ByteReader) returns (res: Result<Header>)
    modifies f
    ensures f.Follows(res, Body(old(f.rest)))
  {
    var props: Option<seq<Records.Record>> := None;
    if |f.rest| > 0 && f.rest[0] == Property.ARCHIVE_PROPERTIES {
      var p :- ArchiveProperties.Retrieve(f);
      props := Some(p);
    }
    var pid :- f.ReadByte();
    var add: Option<StreamsInfo.StreamsInfo> := None;
    if pid == Property.ADDITIONAL_STREAMS_INFO {
      var a :- StreamsInfo.Retrieve(f);
      add := Some(a);
      pid :- f.ReadByte();
    }
    res := ReadAfterAdditional(f, props, add, pid);
  }

  method ReadAfterAdditional(f: ByteReader, props: Option<seq<Records.Record>>, add: Option<StreamsInfo.StreamsInfo>,
                             pid: byte) returns (res: Result<Header>)
    modifies f
    ensures f.Follows(res, AfterAdditional(props, add, pid, old(f.rest)))
  {
    var main: Option<StreamsInfo.StreamsInfo> := None;
    var last := pid;
    if pid == Property.MAIN_STREAMS_INFO {
      var m :- StreamsInfo.Retrieve(f);
      main := Some(m);
      last :- f.ReadByte();
    }
    var files: Option<FilesInfo.FilesInfo> := None;
    if last == Property.FILES_INFO {
      var fi :- FilesInfo.Retrieve(f);
      files := Some(fi);
      last :- f.ReadByte();
    }
    if last != Property.END {
      return Err(UnexpectedProperty(last));
    }
    return Ok(Header(props, add, main, files));
  }

  /** A plain header on a reader. */
  method RetrievePlain(f: ByteReader) returns (res: Result<Header>)
    modifies f
    ensures f.Follows(res, Plain(old(f.rest)))
  {
    var tag :- f.ReadByte();
    if tag != Property.HEADER {
      return Err(UnexpectedProperty(tag));
    }
    res := ReadBody(f);
  }

  /** `Header.retrieve` on a reader: the unpacked bytes of an encoded header
      are read through a reader of their own. */
  method Retrieve(f: ByteReader, decompress: Decompressor) returns (res: Result<Header>)
    modifies f
    ensures f.Follows(res, Decode(old(f.rest), decompress))
  {
    if |f.rest| > 0 && f.rest[0] == Property.HEADER {
      res := RetrievePlain(f);
      return;
    }
    var tag :- f.ReadByte();
    if tag != Property.ENCODED_HEADER {
      return Err(UnexpectedProperty(tag));
    }
    var si :- StreamsInfo.Retrieve(f);
    var data :- decompress(si);
    var buffer := new ByteReader(data);
    var h :- RetrievePlain(buffer);
    return Ok(h);
  }

  // ---------------------------------------------------------------------------
  // Writing, the layout the reader expects

  /** Sections the writer can lay out. */
  predicate Valid(h: Header)
  {
    (h.properties.Some? ==> Records.Writable(h.properties.value))
    && (h.additionalStreams.Some? ==> StreamsInfo.Valid(h.additionalStreams.value))
    && (h.mainStreams.Some? ==> StreamsInfo.Valid(h.mainStreams.value))
    && (h.filesInfo.Some? ==> FilesInfo.Writable(h.filesInfo.value))
  }

  function PropertiesPart(h: Header): seq<byte>
  {
    if h.properties.None? then [] else ArchiveProperties.Serialized(h.properties.value)
  }

  function StreamsPart(tag: byte, si: Option<StreamsInfo.StreamsInfo>): seq<byte>
    requires si.Some? ==> StreamsInfo.Valid(si.value)
  {
    if si.None? then [] else [tag] + StreamsInfo.Serialized(si.value)
  }

  function FilesPart(h: Header): seq<byte>
    requires Valid(h)
  {
    if h.filesInfo.None? then [] else [Property.FILES_INFO] + FilesInfo.Serialized(h.filesInfo.value)
  }

  /** The HEADER tag, each section present behind its tag, END. */
  function Serialized(h: Header): seq<byte>
    requires Valid(h)
  {
    [Property.HEADER]
    + (PropertiesPart(h)
    + (StreamsPart(Property.ADDITIONAL_STREAMS_INFO, h.additionalStreams)
    + (StreamsPart(Property.MAIN_STREAMS_INFO, h.mainStreams)
    + (FilesPart(h) + [Property.END]))))
  }

  // ---------------------------------------------------------------------------
  // Round trip

  /** The files part and END read back. */
  lemma AfterMainSerialized(h: Header, t: seq<byte>, rest: seq<byte>)
    requires Valid(h) && t == FilesPart(h) + ([Property.END] + rest)
    ensures |t| > 0 && t[0] != Property.ARCHIVE_PROPERTIES
    ensures t[0] != Property.ADDITIONAL_STREAMS_INFO && t[0] != Property.MAIN_STREAMS_INFO
    ensures AfterMain(h.properties, h.additionalStreams, h.mainStreams, t[0], t[1..]) == Ok((h, rest))
  {
    if h.filesInfo.None? {
      assert t == [Property.END] + rest;
    } else {
      var body := FilesInfo.Serialized(h.filesInfo.value);
      AppendAssoc([Property.FILES_INFO], body, [Property.END] + rest);
      assert t[1..] == body + ([Property.END] + rest);
      FilesInfo.ParseSerialized(h.filesInfo.value, [Property.END] + rest);
      TakeByteCons(Property.END, rest);
    }
  }

  /** A streams part behind `tag` read back, then the first byte after it. */
  lemma StreamsPartRead(tag: byte, si: StreamsInfo.StreamsInfo, t: seq<byte>, t2: seq<byte>)
    requires StreamsInfo.Valid(si) && t == StreamsPart(tag, Some(si)) + t2 && |t2| > 0
    ensures |t| > 0 && t[0] == tag
    ensures StreamsInfo.Parse(t[1..]) == Ok((si, t2))
    ensures TakeByte(t2) == Ok((t2[0], t2[1..]))
  {
    var body := StreamsInfo.Serialized(si);
    AppendAssoc([tag], body, t2);
    assert t[1..] == body + t2;
    StreamsInfo.ParseSerialized(si, t2);
  }

  /** The main streams part, the files part and END read back. */
  lemma AfterAdditionalSerialized(h: Header, t: seq<byte>, rest: seq<byte>)
    requires Valid(h) && t == StreamsPart(Property.MAIN_STREAMS_INFO, h.mainStreams) + (FilesPart(h) + ([Property.END] + rest))
    ensures |t| > 0 && t[0] != Property.ARCHIVE_PROPERTIES && t[0] != Property.ADDITIONAL_STREAMS_INFO
    ensures AfterAdditional(h.properties, h.additionalStreams, t[0], t[1..]) == Ok((h, rest))
  {
    var t2 := FilesPart(h) + ([Property.END] + rest);
    AfterMainSerialized(h, t2, rest);
    if h.mainStreams.Some? {
      StreamsPartRead(Property.MAIN_STREAMS_INFO, h.mainStreams.value, t, t2);
      MainRead(h, t, t2, rest);
    } else {
      assert t == t2;
    }
  }

  lemma MainRead(h: Header, t: seq<byte>, t2: seq<byte>, rest: seq<byte>)
    requires h.mainStreams.Some? && |t| > 0 && t[0] == Property.MAIN_STREAMS_INFO && |t2| > 0
    requires StreamsInfo.Parse(t[1..]) == Ok((h.mainStreams.value, t2))
    requires AfterMain(h.properties, h.additionalStreams, h.mainStreams, t2[0], t2[1..]) == Ok((h, rest))
    ensures AfterAdditional(h.properties, h.additionalStreams, t[0], t[1..]) == Ok((h, rest))
  {
  }

  /** The additional streams part and what follows it read back. */
  lemma AfterPropertiesSerialized(h: Header, t: seq<byte>, rest: seq<byte>)
    requires Valid(h)
    requires t == StreamsPart(Property.ADDITIONAL_STREAMS_INFO, h.additionalStreams)
      + (StreamsPart(Property.MAIN_STREAMS_INFO, h.mainStreams) + (FilesPart(h) + ([Property.END] + rest)))
    ensures |t| > 0 && t[0] != Property.ARCHIVE_PROPERTIES
    ensures AfterProperties(h.properties, t) == Ok((h, rest))
  {
    var t2 := StreamsPart(Property.MAIN_STREAMS_INFO, h.mainStreams) + (FilesPart(h) + ([Property.END] + rest));
    AfterAdditionalSerialized(h, t2, rest);
    if h.additionalStreams.Some? {
      StreamsPartRead(Property.ADDITIONAL_STREAMS_INFO, h.additionalStreams.value, t, t2);
      AdditionalRead(h, t, t2, rest);
    } else {
      assert t == t2;
      NoAdditionalRead(h, t, rest);
    }
  }

  lemma AdditionalRead(h: Header, t: seq<byte>, t2: seq<byte>, rest: seq<byte>)
    requires h.additionalStreams.Some? && |t| > 0 && t[0] == Property.ADDITIONAL_STREAMS_INFO && |t2| > 0
    requires StreamsInfo.Parse(t[1..]) == Ok((h.additionalStreams.value, t2))
    requires AfterAdditional(h.properties, h.additionalStreams, t2[0], t2[1..]) == Ok((h, rest))
    ensures AfterProperties(h.properties, t) == Ok((h, rest))
  {
  }

  lemma NoAdditionalRead(h: Header, t: seq<byte>, rest: seq<byte>)
    requires h.additionalStreams.None? && |t| > 0 && t[0] != Property.ADDITIONAL_STREAMS_INFO
    requires AfterAdditional(h.properties, h.additionalStreams, t[0], t[1..]) == Ok((h, rest))
    ensures AfterProperties(h.properties, t) == Ok((h, rest))
  {
  }

  /** The body after the HEADER tag reads back. */
  lemma BodySerialized(h: Header, t: seq<byte>, rest: seq<byte>)
    requires Valid(h)
    requires t == StreamsPart(Property.ADDITIONAL_STREAMS_INFO, h.additionalStreams)
      + (StreamsPart(Property.MAIN_STREAMS_INFO, h.mainStreams) + (FilesPart(h) + ([Property.END] + rest)))
    ensures Body(PropertiesPart(h) + t) == Ok((h, rest))
  {
    AfterPropertiesSerialized(h, t, rest);
    if h.properties.Some? {
      var items := h.properties.value;
      ArchiveProperties.ParseSerialized(items, t);
      PropertiesRead(items, PropertiesPart(h) + t, t, h, rest);
    } else {
      assert PropertiesPart(h) + t == t;
    }
  }

  lemma PropertiesRead(items: seq<Records.Record>, s: seq<byte>, t: seq<byte>, h: Header, rest: seq<byte>)
    requires h.properties == Some(items)
    requires ArchiveProperties.Parse(s) == Ok((items, t))
    requires AfterProperties(h.properties, t) == Ok((h, rest))
    ensures Body(s) == Ok((h, rest))
  {
  }

  /** Every header the writer accepts reads back as written, and the bytes
      after its END are left unread. */
  lemma PlainSerialized(h: Header, rest: seq<byte>)
    requires Valid(h)
    ensures Plain(Serialized(h) + rest) == Ok((h, rest))
  {
    var t := StreamsPart(Property.ADDITIONAL_STREAMS_INFO, h.additionalStreams)
      + (StreamsPart(Property.MAIN_STREAMS_INFO, h.mainStreams) + (FilesPart(h) + ([Property.END] + rest)));
    SerializedSplit(h, rest);
    Property.ExpectCons(Property.HEADER, PropertiesPart(h) + t);
    BodySerialized(h, t, rest);
  }

  lemma SerializedSplit(h: Header, rest: seq<byte>)
    requires Valid(h)
    ensures Serialized(h) + rest
      == [Property.HEADER]
         + (PropertiesPart(h)
         + (StreamsPart(Property.ADDITIONAL_STREAMS_INFO, h.additionalStreams)
         + (StreamsPart(Property.MAIN_STREAMS_INFO, h.mainStreams)
         + (FilesPart(h) + ([Property.END] + rest)))))
  {
    var m := StreamsPart(Property.MAIN_STREAMS_INFO, h.mainStreams);
    var a := StreamsPart(Property.ADDITIONAL_STREAMS_INFO, h.additionalStreams);
    var e := FilesPart(h) + [Property.END];
    var d := m + e;
    var c := a + d;
    var b := PropertiesPart(h) + c;
    AppendAssoc([Property.HEADER], b, rest);
    AppendAssoc(PropertiesPart(h), c, rest);
    AppendAssoc(a, d, rest);
    AppendAssoc(m, e, rest);
    AppendAssoc(FilesPart(h), [Property.END], rest);
  }

  /** An encoded header reads back as the header its streams unpack to, and
      the bytes after its streams info are left unread. */
  lemma EncodedSerialized(h: Header, si: StreamsInfo.StreamsInfo, decompress: Decompressor,
                          padding: seq<byte>, rest: seq<byte>)
    requires Valid(h) && StreamsInfo.Valid(si) && decompress(si) == Ok(Serialized(h) + padding)
    ensures Decode([Property.ENCODED_HEADER] + (StreamsInfo.Serialized(si) + rest), decompress) == Ok((h, rest))
  {
    StreamsInfo.ParseSerialized(si, rest);
    PlainSerialized(h, padding);
    EncodedAsPlain(StreamsInfo.Serialized(si) + rest, decompress, si, rest, Serialized(h) + padding);
  }
}
