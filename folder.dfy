/** A folder of the unpack-info section (`Folder`): the coders that turn a group
    of packed streams into one decoded stream, the bind pairs that wire coder
    outputs to coder inputs, and the coder inputs fed straight from packed
    streams. Input and output streams are numbered across the whole folder, in
    coder order. */
module Folders {
  import opened Bytes
  import opened BytesIO
  import opened Records
  import VarInt
  import Io

  /** A coder id has at most 15 bytes: its length sits in the low nibble of the
      flags byte. */
  type CoderId = id: seq<byte> | |id| < 16

  /** One coder; a coder written without the complex flag has one input and one
      output stream, and `props` is `None` when it has no attribute bytes. */
  datatype Coder = Coder(id: CoderId, numIn: uint64, numOut: uint64, props: Option<Chunk>)

  /** Output stream `outIndex` feeds input stream `inIndex`. */
  datatype BindPair = BindPair(inIndex: uint64, outIndex: uint64)

  datatype Folder = Folder(coders: seq<Coder>, bindPairs: seq<BindPair>, packedStreams: seq<uint64>)

  function TotalIn(cs: seq<Coder>): nat
  {
    if cs == [] then 0 else cs[0].numIn + TotalIn(cs[1..])
  }

  function TotalOut(cs: seq<Coder>): nat
  {
    if cs == [] then 0 else cs[0].numOut + TotalOut(cs[1..])
  }

  function InIndices(bps: seq<BindPair>): (r: seq<uint64>)
    ensures |r| == |bps|
  {
    seq(|bps|, k requires 0 <= k < |bps| => bps[k].inIndex)
  }

  function OutIndices(bps: seq<BindPair>): (r: seq<uint64>)
    ensures |r| == |bps|
  {
    seq(|bps|, k requires 0 <= k < |bps| => bps[k].outIndex)
  }

  /** The stream indices below `n` that no bind pair in `taken` names, in
      ascending order. */
  function Missing(taken: seq<uint64>, n: nat): (r: seq<nat>)
    ensures forall j :: j in r ==> j < n && j !in taken
    ensures forall j :: 0 <= j < n && j !in taken ==> j in r
    ensures forall a, b | 0 <= a < b < |r| :: r[a] < r[b]
  {
    if n == 0 then []
    else
      var below := Missing(taken, n - 1);
      assert forall k | 0 <= k < |below| :: below[k] in below;
      below + (if n - 1 in taken then [] else [n - 1])
  }

  lemma MissingHas(taken: seq<uint64>, n: nat, j: nat)
    requires j < n && j !in taken
    ensures j in Missing(taken, n)
  {
  }

  /** The first missing index is the least: every index below it is taken. */
  lemma FirstMissing(taken: seq<uint64>, n: nat)
    requires Missing(taken, n) != []
    ensures forall j :: 0 <= j < Missing(taken, n)[0] ==> j in taken
  {
    var r := Missing(taken, n);
    forall j | 0 <= j < r[0]
      ensures j in taken
    {
      if j !in taken {
        MissingHas(taken, n, j);
        assert false;
      }
    }
  }

  /** What the folder reader accepts: one bind pair fewer than output streams,
      one packed stream for every input no bind pair feeds, exactly one output
      that no bind pair consumes, and a lone packed stream that is the first
      unbound input. */
  predicate WellFormed(f: Folder)
  {
    var totalIn, totalOut := TotalIn(f.coders), TotalOut(f.coders);
    |f.coders| < 0x1_0000_0000_0000_0000
    && totalOut >= 1
    && |f.bindPairs| == totalOut - 1
    && totalIn >= |f.bindPairs|
    && |f.packedStreams| == totalIn - |f.bindPairs|
    && |Missing(OutIndices(f.bindPairs), totalOut)| == 1
    && (|f.packedStreams| == 1 ==>
         Missing(InIndices(f.bindPairs), totalIn) != []
         && f.packedStreams[0] == Missing(InIndices(f.bindPairs), totalIn)[0])
  }

  /** The folder's decoded stream: its one output no bind pair consumes. */
  function MainOutput(f: Folder): nat
    requires WellFormed(f)
  {
    Missing(OutIndices(f.bindPairs), TotalOut(f.coders))[0]
  }

  /** The main output is an output stream no bind pair consumes, and it is the
      only one: every other output feeds some coder input. */
  lemma MainOutputUnique(f: Folder)
    requires WellFormed(f)
    ensures MainOutput(f) < TotalOut(f.coders)
    ensures MainOutput(f) !in OutIndices(f.bindPairs)
    ensures forall j :: 0 <= j < TotalOut(f.coders) && j != MainOutput(f) ==> j in OutIndices(f.bindPairs)
  {
    var r := Missing(OutIndices(f.bindPairs), TotalOut(f.coders));
    assert r[0] in r;
    forall j | 0 <= j < TotalOut(f.coders) && j != MainOutput(f)
      ensures j in OutIndices(f.bindPairs)
    {
      if j !in OutIndices(f.bindPairs) {
        MissingHas(OutIndices(f.bindPairs), TotalOut(f.coders), j);
        assert false;
      }
    }
  }

  // ---------------------------------------------------------------------------
  // Reading

  /** The stream counts of a complex coder: inputs, then outputs. */
  function StreamCounts(s: seq<byte>): (r: Result<(uint64, uint64, seq<byte>)>)
    ensures r.Ok? ==> |r.value.2| < |s|
  {
    var numIn :- VarInt.Decode(s);
    var numOut :- VarInt.Decode(numIn.1);
    Ok((numIn.0, numOut.0, numOut.1))
  }

  /** A coder's attribute bytes behind their size. */
  function Attributes(s: seq<byte>): (r: Result<(Option<Chunk>, seq<byte>)>)
    ensures r.Ok? ==> |r.value.1| < |s|
  {
    var size :- VarInt.Decode(s);
    var data :- Take(size.1, size.0);
    Ok((Some(data.0), data.1))
  }

  /** One coder: the flags byte (id length in bits 0-3, complex in bit 4,
      attributes in bit 5; bits 6 and 7 are not supported), the id, the stream
      counts when complex, the attribute bytes when flagged. */
  function ParseCoder(s: seq<byte>): (r: Result<(Coder, seq<byte>)>)
    ensures r.Ok? ==> |r.value.1| < |s|
    ensures r.Ok? ==> s[0] < 0x40 && |r.value.0.id| == s[0] % 16
  {
    var flags :- TakeByte(s);
    if flags.0 >= 0x40 then Err(Unsupported)
    else
      var id :- Take(flags.1, flags.0 % 16);
      var counts :- if flags.0 / 16 % 2 == 1 then StreamCounts(id.1) else Ok((1, 1, id.1));
      var props :- if flags.0 / 32 % 2 == 1 then Attributes(counts.2) else Ok((None, counts.2));
      Ok((Coder(id.0, counts.0, counts.1, props.0), props.1))
  }

  /** `n` coders, appended to `acc`. */
  function Coders(s: seq<byte>, n: nat, acc: seq<Coder>): (r: Result<(seq<Coder>, seq<byte>)>)
    ensures r.Ok? ==> |r.value.0| == |acc| + n && |r.value.1| <= |s|
    decreases n
  {
    if n == 0 then Ok((acc, s))
    else
      var c :- ParseCoder(s);
      Coders(c.1, n - 1, acc + [c.0])
  }

  lemma CodersStep(s: seq<byte>, n: nat, acc: seq<Coder>)
    requires n > 0
    ensures ParseCoder(s).Err? ==> Coders(s, n, acc) == Err(ParseCoder(s).error)
    ensures ParseCoder(s).Ok? ==>
      Coders(s, n, acc) == Coders(ParseCoder(s).value.1, n - 1, acc + [ParseCoder(s).value.0])
  {
  }

  function ParseBindPair(s: seq<byte>): (r: Result<(BindPair, seq<byte>)>)
    ensures r.Ok? ==> |r.value.1| < |s|
  {
    var inIndex :- VarInt.Decode(s);
    var outIndex :- VarInt.Decode(inIndex.1);
    Ok((BindPair(inIndex.0, outIndex.0), outIndex.1))
  }

  /** `n` bind pairs, appended to `acc`. */
  function BindPairs(s: seq<byte>, n: nat, acc: seq<BindPair>): (r: Result<(seq<BindPair>, seq<byte>)>)
    ensures r.Ok? ==> |r.value.0| == |acc| + n && |r.value.1| <= |s|
    decreases n
  {
    if n == 0 then Ok((acc, s))
    else
      var bp :- ParseBindPair(s);
      BindPairs(bp.1, n - 1, acc + [bp.0])
  }

  /** The packed-stream indices: a lone one is not written and is the first
      input no bind pair feeds; otherwise `count` indices are read. */
  function PackedStreams(s: seq<byte>, bps: seq<BindPair>, totalIn: nat, count: nat)
    : (r: Result<(seq<uint64>, seq<byte>)>)
    ensures r.Ok? ==> |r.value.0| == count && |r.value.1| <= |s|
    ensures r.Ok? && count == 1 ==>
      (Missing(InIndices(bps), totalIn) != [] && r.value.0[0] == Missing(InIndices(bps), totalIn)[0])
  {
    if count == 1 then
      var free := Missing(InIndices(bps), totalIn);
      if free == [] || free[0] >= 0x1_0000_0000_0000_0000 then Err(MalformedFolder)
      else Ok(([free[0] as uint64], s))
    else Io.UInt64s(s, count, [])
  }

  /** `Folder.retrieve`: the coders, `total outputs - 1` bind pairs, the packed
      streams, and the check that exactly one output is left unbound. */
  function Parse(s: seq<byte>): (r: Result<(Folder, seq<byte>)>)
    ensures r.Ok? ==> |r.value.1| < |s|
  {
    var n :- VarInt.Decode(s);
    var cs :- Coders(n.1, n.0, []);
    AfterCoders(cs.0, cs.1)
  }

  /** The folder reader accepts only well-formed folders. */
  lemma ParseWellFormed(s: seq<byte>)
    requires Parse(s).Ok?
    ensures WellFormed(Parse(s).value.0)
  {
    var n := VarInt.Decode(s).value;
    var cs := Coders(n.1, n.0, []).value;
    var bps := BindPairs(cs.1, TotalOut(cs.0) - 1, []).value;
    AfterBindPairsWellFormed(cs.0, bps.0, bps.1);
  }

  lemma AfterBindPairsWellFormed(coders: seq<Coder>, bps: seq<BindPair>, s: seq<byte>)
    requires |coders| < 0x1_0000_0000_0000_0000
    requires TotalOut(coders) >= 1 && |bps| == TotalOut(coders) - 1
    requires AfterBindPairs(coders, bps, s).Ok?
    ensures WellFormed(AfterBindPairs(coders, bps, s).value.0)
  {
  }

  /** What follows the coders: the bind pairs, then the packed streams. */
  function AfterCoders(coders: seq<Coder>, s: seq<byte>): (r: Result<(Folder, seq<byte>)>)
    requires |coders| < 0x1_0000_0000_0000_0000
    ensures r.Ok? ==> |r.value.1| <= |s|
  {
    var totalOut := TotalOut(coders);
    if totalOut == 0 then Err(MalformedFolder)
    else
      var bps :- BindPairs(s, totalOut - 1, []);
      AfterBindPairs(coders, bps.0, bps.1)
  }

  function AfterBindPairs(coders: seq<Coder>, bps: seq<BindPair>, s: seq<byte>): (r: Result<(Folder, seq<byte>)>)
    requires |coders| < 0x1_0000_0000_0000_0000
    requires TotalOut(coders) >= 1 && |bps| == TotalOut(coders) - 1
    ensures r.Ok? ==> |r.value.1| <= |s|
  {
    var totalIn, totalOut := TotalIn(coders), TotalOut(coders);
    if totalIn < totalOut - 1 then Err(MalformedFolder)
    else
      var packed :- PackedStreams(s, bps, totalIn, totalIn - (totalOut - 1));
      if |Missing(OutIndices(bps), totalOut)| != 1 then Err(MalformedFolder)
      else Ok((Folder(coders, bps, packed.0), packed.1))
  }

  // ---------------------------------------------------------------------------
  // Reading from a reader

  method ReadCoder(f: ByteReader) returns (res: Result<Coder>)
    modifies f
    ensures f.Follows(res, ParseCoder(old(f.rest)))
  {
    var flags :- f.ReadByte();
    if flags >= 0x40 {
      return Err(Unsupported);
    }
    var id :- f.Read(flags % 16);
    var numIn: uint64, numOut: uint64 := 1, 1;
    if flags / 16 % 2 == 1 {
      numIn :- Io.ReadUInt64(f);
      numOut :- Io.ReadUInt64(f);
    }
    var props: Option<Chunk> := None;
    if flags / 32 % 2 == 1 {
      var size :- Io.ReadUInt64(f);
      var data :- f.Read(size);
      props := Some(data);
    }
    return Ok(Coder(id, numIn, numOut, props));
  }

  method ReadBindPair(f: ByteReader) returns (res: Result<BindPair>)
    modifies f
    ensures f.Follows(res, ParseBindPair(old(f.rest)))
  {
    var inIndex :- Io.ReadUInt64(f);
    var outIndex :- Io.ReadUInt64(f);
    return Ok(BindPair(inIndex, outIndex));
  }

  method ReadCoders(f: ByteReader, n: nat) returns (res: Result<seq<Coder>>)
    modifies f
    ensures f.Follows(res, Coders(old(f.rest), n, []))
  {
    var coders: seq<Coder> := [];
    var i := 0;
    while i < n
      invariant i <= n
      invariant Coders(f.rest, n - i, coders) == Coders(old(f.rest), n, [])
    {
      CodersStep(f.rest, n - i, coders);
      var c :- ReadCoder(f);
      coders := coders + [c];
      i := i + 1;
    }
    return Ok(coders);
  }

  method ReadBindPairs(f: ByteReader, n: nat) returns (res: Result<seq<BindPair>>)
    modifies f
    ensures f.Follows(res, BindPairs(old(f.rest), n, []))
  {
    var bindPairs: seq<BindPair> := [];
    var i := 0;
    while i < n
      invariant i <= n
      invariant BindPairs(f.rest, n - i, bindPairs) == BindPairs(old(f.rest), n, [])
    {
      var bp :- ReadBindPair(f);
      bindPairs := bindPairs + [bp];
      i := i + 1;
    }
    return Ok(bindPairs);
  }

  method ReadPackedStreams(f: ByteReader, bps: seq<BindPair>, totalIn: nat, count: nat)
    returns (res: Result<seq<uint64>>)
    modifies f
    ensures f.Follows(res, PackedStreams(old(f.rest), bps, totalIn, count))
  {
    if count == 1 {
      var free := Missing(InIndices(bps), totalIn);
      if free == [] || free[0] >= 0x1_0000_0000_0000_0000 {
        return Err(MalformedFolder);
      }
      return Ok([free[0] as uint64]);
    }
    res := Io.ReadUInt64s(f, count);
  }

  /** `Folder.retrieve` on a reader. */
  method Retrieve(f: ByteReader) returns (res: Result<Folder>)
    modifies f
    ensures f.Follows(res, Parse(old(f.rest)))
  {
    var n :- Io.ReadUInt64(f);
    var coders :- ReadCoders(f, n);
    res := ReadAfterCoders(f, coders);
  }

  method ReadAfterCoders(f: ByteReader, coders: seq<Coder>) returns (res: Result<Folder>)
    requires |coders| < 0x1_0000_0000_0000_0000
    modifies f
    ensures f.Follows(res, AfterCoders(coders, old(f.rest)))
  {
    var totalOut := TotalOut(coders);
    if totalOut == 0 {
      return Err(MalformedFolder);
    }
    var bindPairs :- ReadBindPairs(f, totalOut - 1);
    res := ReadAfterBindPairs(f, coders, bindPairs);
  }

  method ReadAfterBindPairs(f: ByteReader, coders: seq<Coder>, bps: seq<BindPair>) returns (res: Result<Folder>)
    requires |coders| < 0x1_0000_0000_0000_0000
    requires TotalOut(coders) >= 1 && |bps| == TotalOut(coders) - 1
    modifies f
    ensures f.Follows(res, AfterBindPairs(coders, bps, old(f.rest)))
  {
    var totalIn, totalOut := TotalIn(coders), TotalOut(coders);
    if totalIn < totalOut - 1 {
      return Err(MalformedFolder);
    }
    var packed :- ReadPackedStreams(f, bps, totalIn, totalIn - (totalOut - 1));
    if |Missing(OutIndices(bps), totalOut)| != 1 {
      return Err(MalformedFolder);
    }
    return Ok(Folder(coders, bps, packed));
  }

  // ---------------------------------------------------------------------------
  // Writing, the layout the reader expects

  predicate Complex(c: Coder)
  {
    c.numIn != 1 || c.numOut != 1
  }

  /** The flags byte: id length, then the complex and attribute bits. */
  function Flags(c: Coder): byte
  {
    |c.id| + (if Complex(c) then 0x10 else 0) + (if c.props.Some? then 0x20 else 0)
  }

  function CountsBytes(c: Coder): seq<byte>
  {
    if Complex(c) then VarInt.Encode(c.numIn) + VarInt.Encode(c.numOut) else []
  }

  function AttributesBytes(props: Option<Chunk>): seq<byte>
  {
    if props.Some? then VarInt.Encode(|props.value|) + props.value else []
  }

  function CoderBytes(c: Coder): seq<byte>
  {
    [Flags(c)] + (c.id + (CountsBytes(c) + AttributesBytes(c.props)))
  }

  function CodersBytes(cs: seq<Coder>): seq<byte>
  {
    if cs == [] then [] else CoderBytes(cs[0]) + CodersBytes(cs[1..])
  }

  function BindPairBytes(bp: BindPair): seq<byte>
  {
    VarInt.Encode(bp.inIndex) + VarInt.Encode(bp.outIndex)
  }

  function BindPairsBytes(bps: seq<BindPair>): seq<byte>
  {
    if bps == [] then [] else BindPairBytes(bps[0]) + BindPairsBytes(bps[1..])
  }

  /** A lone packed stream is implied, so it is not written. */
  function PackedBytes(packed: seq<uint64>): seq<byte>
  {
    if |packed| == 1 then [] else Io.UInt64sBytes(packed)
  }

  /** The folder as the reader expects it: the coder count, the coders, the bind
      pairs and the packed-stream indices. */
  function Serialized(f: Folder): seq<byte>
    requires |f.coders| < 0x1_0000_0000_0000_0000
  {
    VarInt.Encode(|f.coders|) + (CodersBytes(f.coders) + (BindPairsBytes(f.bindPairs) + PackedBytes(f.packedStreams)))
  }

  // ---------------------------------------------------------------------------
  // Round trip

  /** The flags byte carries the id length and the two flags, with bits 6 and 7
      clear. */
  lemma FlagsBits(c: Coder)
    ensures Flags(c) < 0x40 && Flags(c) % 16 == |c.id|
    ensures (Flags(c) / 16 % 2 == 1) == Complex(c)
    ensures (Flags(c) / 32 % 2 == 1) == c.props.Some?
  {
  }

  lemma CountsRoundTrip(c: Coder, rest: seq<byte>)
    ensures (if Complex(c) then StreamCounts(CountsBytes(c) + rest) else Ok((1, 1, CountsBytes(c) + rest)))
      == Ok((c.numIn, c.numOut, rest))
  {
    if Complex(c) {
      var e := VarInt.Encode(c.numOut) + rest;
      assert CountsBytes(c) + rest == VarInt.Encode(c.numIn) + e;
      VarInt.DecodeEncode(c.numIn, e);
      VarInt.DecodeEncode(c.numOut, rest);
    } else {
      assert CountsBytes(c) + rest == rest;
    }
  }

  lemma AttributesRoundTrip(props: Option<Chunk>, rest: seq<byte>)
    ensures (if props.Some? then Attributes(AttributesBytes(props) + rest) else Ok((None, AttributesBytes(props) + rest)))
      == Ok((props, rest))
  {
    if props.Some? {
      assert AttributesBytes(props) + rest == VarInt.Encode(|props.value|) + (props.value + rest);
      VarInt.DecodeEncode(|props.value|, props.value + rest);
      TakeAppend(props.value, rest);
    } else {
      assert AttributesBytes(props) + rest == rest;
    }
  }

  /** A coder written with its flags reads back whole. */
  lemma CoderRoundTrip(c: Coder, rest: seq<byte>)
    ensures ParseCoder(CoderBytes(c) + rest) == Ok((c, rest))
  {
    var t3 := AttributesBytes(c.props) + rest;
    var t2 := CountsBytes(c) + t3;
    var t1 := c.id + t2;
    assert CoderBytes(c) + rest == [Flags(c)] + t1;
    TakeByteCons(Flags(c), t1);
    FlagsBits(c);
    TakeAppend(c.id, t2);
    CountsRoundTrip(c, t3);
    AttributesRoundTrip(c.props, rest);
  }

  lemma {:induction false} CodersRoundTrip(cs: seq<Coder>, rest: seq<byte>, acc: seq<Coder>)
    ensures Coders(CodersBytes(cs) + rest, |cs|, acc) == Ok((acc + cs, rest))
    decreases |cs|
  {
    if cs == [] {
      assert acc + cs == acc;
      assert CodersBytes(cs) + rest == rest;
    } else {
      CodersRoundTrip(cs[1..], rest, acc + [cs[0]]);
      CodersHead(cs, rest, acc);
    }
  }

  lemma CodersHead(cs: seq<Coder>, rest: seq<byte>, acc: seq<Coder>)
    requires cs != []
    requires Coders(CodersBytes(cs[1..]) + rest, |cs[1..]|, acc + [cs[0]]) == Ok((acc + [cs[0]] + cs[1..], rest))
    ensures Coders(CodersBytes(cs) + rest, |cs|, acc) == Ok((acc + cs, rest))
  {
    assert CodersBytes(cs) + rest == CoderBytes(cs[0]) + (CodersBytes(cs[1..]) + rest);
    CoderRoundTrip(cs[0], CodersBytes(cs[1..]) + rest);
    Io.AppendHead(acc, cs);
  }

  lemma {:induction false} BindPairsRoundTrip(bps: seq<BindPair>, rest: seq<byte>, acc: seq<BindPair>)
    ensures BindPairs(BindPairsBytes(bps) + rest, |bps|, acc) == Ok((acc + bps, rest))
    decreases |bps|
  {
    if bps == [] {
      assert acc + bps == acc;
      assert BindPairsBytes(bps) + rest == rest;
    } else {
      BindPairsRoundTrip(bps[1..], rest, acc + [bps[0]]);
      BindPairsHead(bps, rest, acc);
    }
  }

  lemma BindPairsHead(bps: seq<BindPair>, rest: seq<byte>, acc: seq<BindPair>)
    requires bps != []
    requires BindPairs(BindPairsBytes(bps[1..]) + rest, |bps[1..]|, acc + [bps[0]]) == Ok((acc + [bps[0]] + bps[1..], rest))
    ensures BindPairs(BindPairsBytes(bps) + rest, |bps|, acc) == Ok((acc + bps, rest))
  {
    assert BindPairsBytes(bps) + rest == BindPairBytes(bps[0]) + (BindPairsBytes(bps[1..]) + rest);
    BindPairRoundTrip(bps[0], BindPairsBytes(bps[1..]) + rest);
    Io.AppendHead(acc, bps);
  }

  lemma BindPairRoundTrip(bp: BindPair, rest: seq<byte>)
    ensures ParseBindPair(BindPairBytes(bp) + rest) == Ok((bp, rest))
  {
    assert BindPairBytes(bp) + rest == VarInt.Encode(bp.inIndex) + (VarInt.Encode(bp.outIndex) + rest);
    VarInt.DecodeEncode(bp.inIndex, VarInt.Encode(bp.outIndex) + rest);
    VarInt.DecodeEncode(bp.outIndex, rest);
  }

  lemma PackedRoundTrip(f: Folder, rest: seq<byte>)
    requires WellFormed(f)
    ensures PackedStreams(PackedBytes(f.packedStreams) + rest, f.bindPairs, TotalIn(f.coders), |f.packedStreams|)
      == Ok((f.packedStreams, rest))
  {
    if |f.packedStreams| == 1 {
      assert PackedBytes(f.packedStreams) + rest == rest;
      assert f.packedStreams == [f.packedStreams[0]];
    } else {
      Io.UInt64sRoundTrip(f.packedStreams, rest, []);
      assert [] + f.packedStreams == f.packedStreams;
    }
  }

  lemma AfterBindPairsSerialized(f: Folder, rest: seq<byte>)
    requires WellFormed(f)
    ensures AfterBindPairs(f.coders, f.bindPairs, PackedBytes(f.packedStreams) + rest) == Ok((f, rest))
  {
    PackedRoundTrip(f, rest);
  }

  lemma AfterCodersSerialized(f: Folder, rest: seq<byte>)
    requires WellFormed(f)
    ensures AfterCoders(f.coders, BindPairsBytes(f.bindPairs) + (PackedBytes(f.packedStreams) + rest)) == Ok((f, rest))
  {
    var tail := PackedBytes(f.packedStreams) + rest;
    var totalOut := TotalOut(f.coders);
    assert totalOut >= 1 && |f.bindPairs| == totalOut - 1;
    BindPairsRoundTrip(f.bindPairs, tail, []);
    assert [] + f.bindPairs == f.bindPairs;
    assert BindPairs(BindPairsBytes(f.bindPairs) + tail, totalOut - 1, []) == Ok((f.bindPairs, tail));
    AfterBindPairsSerialized(f, rest);
  }

  /** Every folder the reader accepts is read back from its serialization, and
      the bytes after it are left unread. */
  lemma ParseSerialized(f: Folder, rest: seq<byte>)
    requires WellFormed(f)
    ensures Parse(Serialized(f) + rest) == Ok((f, rest))
  {
    var t2 := BindPairsBytes(f.bindPairs) + (PackedBytes(f.packedStreams) + rest);
    var t1 := CodersBytes(f.coders) + t2;
    SerializedSplit(f, rest);
    VarInt.DecodeEncode(|f.coders|, t1);
    CodersRoundTrip(f.coders, t2, []);
    assert [] + f.coders == f.coders;
    AfterCodersSerialized(f, rest);
  }

  lemma SerializedSplit(f: Folder, rest: seq<byte>)
    requires |f.coders| < 0x1_0000_0000_0000_0000
    ensures Serialized(f) + rest == VarInt.Encode(|f.coders|)
      + (CodersBytes(f.coders) + (BindPairsBytes(f.bindPairs) + (PackedBytes(f.packedStreams) + rest)))
  {
  }
}
