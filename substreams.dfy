/** The substreams-info section (`SubstreamsInfo`): how each folder's decoded
    stream is cut into the streams of individual files, and the CRCs of those
    streams that the folder CRCs do not already give. The section's 0x08 tag is
    read by the enclosing streams-info reader; the folders' decoded sizes and
    which of them carry a CRC come from the unpack-info section.

    Each optional part is announced by a property id that is read before it is
    known which part follows, so the readers hand the id read last on to the
    next stage. */
module SubStreams {
  import opened Bytes
  import opened BytesIO
  import VarInt
  import Io
  import Property

  /** Per folder the number of substreams, the sizes of all substreams in
      folder order, and the kCRC digests of the substreams that need one. */
  datatype SubStreams = SubStreams(counts: seq<uint64>, sizes: seq<uint64>, digests: Option<seq<Option<uint32>>>)

  function Sum(xs: seq<uint64>): nat
  {
    if xs == [] then 0 else Sum(xs[..|xs| - 1]) + xs[|xs| - 1]
  }

  lemma SumSnoc(xs: seq<uint64>, x: uint64)
    ensures Sum(xs + [x]) == Sum(xs) + x
  {
    assert (xs + [x])[..|xs|] == xs;
  }

  /** One substream per folder: the count when kNumUnpackStream is absent. */
  function Ones(n: nat): (r: seq<uint64>)
    ensures |r| == n && forall i | 0 <= i < n :: r[i] == 1
  {
    seq(n, i => 1)
  }

  /** The number of digests stored: a folder with one substream and a folder
      CRC needs none, any other folder one per substream. */
  function NumDigests(counts: seq<uint64>, folderCrc: seq<bool>): nat
    requires |counts| == |folderCrc|
  {
    if counts == [] then 0
    else (if counts[0] == 1 && folderCrc[0] then 0 else counts[0] as nat) + NumDigests(counts[1..], folderCrc[1..])
  }

  lemma {:induction false} SumCons(x: uint64, xs: seq<uint64>)
    ensures Sum([x] + xs) == x + Sum(xs)
    decreases |xs|
  {
    if xs == [] {
      assert ([x] + xs)[..0] == [];
    } else {
      var init := xs[..|xs| - 1];
      assert [x] + xs == ([x] + init) + [xs[|xs| - 1]];
      SumSnoc([x] + init, xs[|xs| - 1]);
      SumCons(x, init);
    }
  }

  /** Stored digests never outnumber the substreams; without folder CRCs every
      substream has its own, and when every folder has one substream and a
      folder CRC none are stored. */
  lemma {:induction false} NumDigestsBounds(counts: seq<uint64>, folderCrc: seq<bool>)
    requires |counts| == |folderCrc|
    ensures NumDigests(counts, folderCrc) <= Sum(counts)
    ensures (forall i | 0 <= i < |folderCrc| :: !folderCrc[i]) ==> NumDigests(counts, folderCrc) == Sum(counts)
    ensures (forall i | 0 <= i < |counts| :: counts[i] == 1 && folderCrc[i]) ==> NumDigests(counts, folderCrc) == 0
    decreases |counts|
  {
    if counts != [] {
      NumDigestsBounds(counts[1..], folderCrc[1..]);
      assert [counts[0]] + counts[1..] == counts;
      SumCons(counts[0], counts[1..]);
      if forall i | 0 <= i < |folderCrc| :: !folderCrc[i] {
        assert !folderCrc[0];
        assert forall i | 0 <= i < |folderCrc[1..]| :: !folderCrc[1..][i] by {
          forall i | 0 <= i < |folderCrc[1..]| ensures !folderCrc[1..][i] { assert folderCrc[1..][i] == folderCrc[i + 1]; }
        }
      }
      if forall i | 0 <= i < |counts| :: counts[i] == 1 && folderCrc[i] {
        assert counts[0] == 1 && folderCrc[0];
        assert forall i | 0 <= i < |counts[1..]| :: counts[1..][i] == 1 && folderCrc[1..][i] by {
          forall i | 0 <= i < |counts[1..]| ensures counts[1..][i] == 1 && folderCrc[1..][i] {
            assert counts[1..][i] == counts[i + 1] && folderCrc[1..][i] == folderCrc[i + 1];
          }
        }
      }
    }
  }

  /** `sizes` cut into one group per folder, `counts[i]` sizes long, each
      non-empty group summing to the folder's decoded size. */
  predicate Partition(counts: seq<uint64>, folderSizes: seq<uint64>, sizes: seq<uint64>)
    requires |counts| == |folderSizes|
    decreases |counts|
  {
    if counts == [] then sizes == []
    else
      counts[0] as nat <= |sizes|
      && (counts[0] > 0 ==> Sum(sizes[..counts[0]]) == folderSizes[0])
      && Partition(counts[1..], folderSizes[1..], sizes[counts[0]..])
  }

  /** What the reader produces and the writer accepts, for folders of the given
      decoded sizes and folder CRCs. */
  predicate Valid(ss: SubStreams, folderSizes: seq<uint64>, folderCrc: seq<bool>)
  {
    |ss.counts| == |folderSizes| == |folderCrc|
    && Partition(ss.counts, folderSizes, ss.sizes)
    && (ss.digests.Some? ==> |ss.digests.value| == NumDigests(ss.counts, folderCrc))
  }

  // ---------------------------------------------------------------------------
  // Reading

  /** The kSize list: per folder with substreams, all sizes but the last, the
      last being what the others leave of the folder's size. */
  function StreamSizes(s: seq<byte>, counts: seq<uint64>, folderSizes: seq<uint64>, acc: seq<uint64>)
    : (r: Result<(seq<uint64>, seq<byte>)>)
    requires |counts| == |folderSizes|
    ensures r.Ok? ==> |r.value.1| <= |s|
    decreases |counts|
  {
    if counts == [] then Ok((acc, s))
    else if counts[0] == 0 then StreamSizes(s, counts[1..], folderSizes[1..], acc)
    else
      var xs :- Io.UInt64s(s, counts[0] - 1, []);
      if Sum(xs.0) > folderSizes[0] as nat then Err(MalformedSubStreams)
      else StreamSizes(xs.1, counts[1..], folderSizes[1..], acc + xs.0 + [folderSizes[0] - Sum(xs.0) as uint64])
  }

  /** The sizes when kSize is absent: a folder's one substream is the whole
      folder; more than one substream cannot be sized. */
  function ImpliedSizes(counts: seq<uint64>, folderSizes: seq<uint64>): (r: Result<seq<uint64>>)
    requires |counts| == |folderSizes|
    ensures r.Ok? ==> Partition(counts, folderSizes, r.value)
    ensures r.Err? <==> exists i | 0 <= i < |counts| :: counts[i] > 1
    decreases |counts|
  {
    if counts == [] then Ok([])
    else if counts[0] > 1 then Err(MalformedSubStreams)
    else
      var others :- ImpliedSizes(counts[1..], folderSizes[1..]);
      var group := if counts[0] == 1 then [folderSizes[0]] else [];
      assert (group + others)[..counts[0]] == group && (group + others)[counts[0]..] == others;
      assert counts[0] == 1 ==> Sum(group) == folderSizes[0] by {
        if counts[0] == 1 {
          SumSnoc([], folderSizes[0]);
          assert [] + [folderSizes[0]] == group;
        }
      }
      Ok(group + others)
  }

  /** `SubstreamsInfo.retrieve`: the property id after the section tag, then
      the optional counts, the optional sizes and the optional digests, then
      END. */
  function Parse(s: seq<byte>, folderSizes: seq<uint64>, folderCrc: seq<bool>): (r: Result<(SubStreams, seq<byte>)>)
    requires |folderSizes| == |folderCrc|
    ensures r.Ok? ==> |r.value.1| < |s|
  {
    var pid :- TakeByte(s);
    AfterTag(pid.0, pid.1, folderSizes, folderCrc)
  }

  /** kNumUnpackStream and the counts, or one substream per folder. */
  function AfterTag(pid: byte, s: seq<byte>, folderSizes: seq<uint64>, folderCrc: seq<bool>)
    : (r: Result<(SubStreams, seq<byte>)>)
    requires |folderSizes| == |folderCrc|
    ensures r.Ok? ==> |r.value.1| <= |s|
  {
    if pid == Property.NUM_UNPACK_STREAM then
      var counts :- Io.UInt64s(s, |folderSizes|, []);
      var next :- TakeByte(counts.1);
      AfterCounts(counts.0, next.0, next.1, folderSizes, folderCrc)
    else
      AfterCounts(Ones(|folderSizes|), pid, s, folderSizes, folderCrc)
  }

  /** kSize and the sizes, or the sizes the counts imply. */
  function AfterCounts(counts: seq<uint64>, pid: byte, s: seq<byte>, folderSizes: seq<uint64>, folderCrc: seq<bool>)
    : (r: Result<(SubStreams, seq<byte>)>)
    requires |counts| == |folderSizes| == |folderCrc|
    ensures r.Ok? ==> |r.value.1| <= |s|
  {
    if pid == Property.SIZE then
      var sizes :- StreamSizes(s, counts, folderSizes, []);
      var next :- TakeByte(sizes.1);
      AfterSizes(counts, sizes.0, next.0, next.1, folderCrc)
    else
      var sizes :- ImpliedSizes(counts, folderSizes);
      AfterSizes(counts, sizes, pid, s, folderCrc)
  }

  /** kCRC and the digests of the substreams that need one, then END. */
  function AfterSizes(counts: seq<uint64>, sizes: seq<uint64>, pid: byte, s: seq<byte>, folderCrc: seq<bool>)
    : (r: Result<(SubStreams, seq<byte>)>)
    requires |counts| == |folderCrc|
    ensures r.Ok? ==> |r.value.1| <= |s|
  {
    var digests :- Io.DigestsAfter(pid, s, NumDigests(counts, folderCrc));
    Ok((SubStreams(counts, sizes, digests.0), digests.1))
  }

  // ---------------------------------------------------------------------------
  // What the reader accepts

  /** Within each folder the substream sizes add up to the folder's size. */
  lemma {:induction false} StreamSizesPartition(s: seq<byte>, counts: seq<uint64>, folderSizes: seq<uint64>, acc: seq<uint64>)
    requires |counts| == |folderSizes| && StreamSizes(s, counts, folderSizes, acc).Ok?
    ensures acc <= StreamSizes(s, counts, folderSizes, acc).value.0
    ensures Partition(counts, folderSizes, StreamSizes(s, counts, folderSizes, acc).value.0[|acc|..])
    decreases |counts|
  {
    var r := StreamSizes(s, counts, folderSizes, acc).value.0;
    if counts == [] {
    } else if counts[0] == 0 {
      StreamSizesPartition(s, counts[1..], folderSizes[1..], acc);
      assert r[|acc|..][0..] == r[|acc|..];
    } else {
      var xs := Io.UInt64s(s, counts[0] - 1, []).value;
      var last := folderSizes[0] - Sum(xs.0) as uint64;
      var group := xs.0 + [last];
      assert acc + xs.0 + [last] == acc + group;
      StreamSizesPartition(xs.1, counts[1..], folderSizes[1..], acc + group);
      SumSnoc(xs.0, last);
      PartitionStep(counts, folderSizes, acc, group, r);
    }
  }

  lemma PartitionStep(counts: seq<uint64>, folderSizes: seq<uint64>, acc: seq<uint64>, group: seq<uint64>, r: seq<uint64>)
    requires |counts| == |folderSizes| && counts != [] && |group| == counts[0] as nat > 0
    requires Sum(group) == folderSizes[0]
    requires acc + group <= r && Partition(counts[1..], folderSizes[1..], r[|acc + group|..])
    ensures acc <= r && Partition(counts, folderSizes, r[|acc|..])
  {
    var t := r[|acc|..];
    assert t[..counts[0]] == group;
    assert t[counts[0]..] == r[|acc + group|..];
  }

  /** A section the reader accepts states its sizes consistently: one group per
      folder, each group adding up to its folder's size. */
  lemma ParseValid(s: seq<byte>, folderSizes: seq<uint64>, folderCrc: seq<bool>)
    requires |folderSizes| == |folderCrc| && Parse(s, folderSizes, folderCrc).Ok?
    ensures Valid(Parse(s, folderSizes, folderCrc).value.0, folderSizes, folderCrc)
  {
    var pid := TakeByte(s).value;
    if pid.0 == Property.NUM_UNPACK_STREAM {
      var counts := Io.UInt64s(pid.1, |folderSizes|, []).value;
      var next := TakeByte(counts.1).value;
      AfterCountsValid(counts.0, next.0, next.1, folderSizes, folderCrc);
    } else {
      AfterCountsValid(Ones(|folderSizes|), pid.0, pid.1, folderSizes, folderCrc);
    }
  }

  lemma AfterCountsValid(counts: seq<uint64>, pid: byte, s: seq<byte>, folderSizes: seq<uint64>, folderCrc: seq<bool>)
    requires |counts| == |folderSizes| == |folderCrc| && AfterCounts(counts, pid, s, folderSizes, folderCrc).Ok?
    ensures AfterCounts(counts, pid, s, folderSizes, folderCrc).value.0.counts == counts
    ensures Valid(AfterCounts(counts, pid, s, folderSizes, folderCrc).value.0, folderSizes, folderCrc)
  {
    if pid == Property.SIZE {
      StreamSizesPartition(s, counts, folderSizes, []);
      assert StreamSizes(s, counts, folderSizes, []).value.0[0..] == StreamSizes(s, counts, folderSizes, []).value.0;
    }
  }

  // ---------------------------------------------------------------------------
  // Reading from a reader

  lemma StreamSizesStep(s: seq<byte>, counts: seq<uint64>, folderSizes: seq<uint64>, acc: seq<uint64>)
    requires |counts| == |folderSizes| && counts != [] && counts[0] > 0
    ensures Io.UInt64s(s, counts[0] - 1, []).Err? ==>
      StreamSizes(s, counts, folderSizes, acc) == Err(Io.UInt64s(s, counts[0] - 1, []).error)
    ensures Io.UInt64s(s, counts[0] - 1, []).Ok? ==>
      var xs := Io.UInt64s(s, counts[0] - 1, []).value;
      StreamSizes(s, counts, folderSizes, acc)
        == if Sum(xs.0) > folderSizes[0] as nat then Err(MalformedSubStreams)
           else StreamSizes(xs.1, counts[1..], folderSizes[1..], acc + xs.0 + [folderSizes[0] - Sum(xs.0) as uint64])
  {
  }

  /** The kSize list on a reader: per folder, read all sizes but the last, add
      them up, and derive the last. */
  method ReadStreamSizes(f: ByteReader, counts: seq<uint64>, folderSizes: seq<uint64>) returns (res: Result<seq<uint64>>)
    requires |counts| == |folderSizes|
    modifies f
    ensures f.Follows(res, StreamSizes(old(f.rest), counts, folderSizes, []))
  {
    var sizes: seq<uint64> := [];
    var i := 0;
    while i < |counts|
      invariant i <= |counts|
      invariant StreamSizes(f.rest, counts[i..], folderSizes[i..], sizes) == StreamSizes(old(f.rest), counts, folderSizes, [])
    {
      assert counts[i..][1..] == counts[i + 1..] && folderSizes[i..][1..] == folderSizes[i + 1..];
      if counts[i] > 0 {
        StreamSizesStep(f.rest, counts[i..], folderSizes[i..], sizes);
        var xs :- Io.ReadUInt64s(f, counts[i] - 1);
        var total := SumOf(xs);
        if total > folderSizes[i] as nat {
          return Err(MalformedSubStreams);
        }
        sizes := sizes + xs + [folderSizes[i] - total as uint64];
      }
      i := i + 1;
    }
    return Ok(sizes);
  }

  /** `sum(xs)`. */
  method SumOf(xs: seq<uint64>) returns (total: nat)
    ensures total == Sum(xs)
  {
    total := 0;
    var i := 0;
    while i < |xs|
      invariant i <= |xs| && total == Sum(xs[..i])
    {
      assert xs[..i + 1] == xs[..i] + [xs[i]];
      SumSnoc(xs[..i], xs[i]);
      total := total + xs[i];
      i := i + 1;
    }
    assert xs[..i] == xs;
  }

  /** `SubstreamsInfo.retrieve` on a reader. */
  method Retrieve(f: ByteReader, folderSizes: seq<uint64>, folderCrc: seq<bool>) returns (res: Result<SubStreams>)
    requires |folderSizes| == |folderCrc|
    modifies f
    ensures f.Follows(res, Parse(old(f.rest), folderSizes, folderCrc))
  {
    var pid :- f.ReadByte();
    res := ReadAfterTag(f, pid, folderSizes, folderCrc);
  }

  method ReadAfterTag(f: ByteReader, pid: byte, folderSizes: seq<uint64>, folderCrc: seq<bool>) returns (res: Result<SubStreams>)
    requires |folderSizes| == |folderCrc|
    modifies f
    ensures f.Follows(res, AfterTag(pid, old(f.rest), folderSizes, folderCrc))
  {
    if pid == Property.NUM_UNPACK_STREAM {
      var counts :- Io.ReadUInt64s(f, |folderSizes|);
      var next :- f.ReadByte();
      res := ReadAfterCounts(f, counts, next, folderSizes, folderCrc);
    } else {
      res := ReadAfterCounts(f, Ones(|folderSizes|), pid, folderSizes, folderCrc);
    }
  }

  method ReadAfterCounts(f: ByteReader, counts: seq<uint64>, pid: byte, folderSizes: seq<uint64>, folderCrc: seq<bool>)
    returns (res: Result<SubStreams>)
    requires |counts| == |folderSizes| == |folderCrc|
    modifies f
    ensures f.Follows(res, AfterCounts(counts, pid, old(f.rest), folderSizes, folderCrc))
  {
    if pid == Property.SIZE {
      var sizes :- ReadStreamSizes(f, counts, folderSizes);
      var next :- f.ReadByte();
      var digests :- Io.ReadDigestsAfter(f, next, NumDigests(counts, folderCrc));
      return Ok(SubStreams(counts, sizes, digests));
    } else {
      var sizes :- ImpliedSizes(counts, folderSizes);
      var digests :- Io.ReadDigestsAfter(f, pid, NumDigests(counts, folderCrc));
      return Ok(SubStreams(counts, sizes, digests));
    }
  }

  // ---------------------------------------------------------------------------
  // Writing, the layout the reader expects

  /** Per folder with substreams, all sizes of its group but the last. */
  function WrittenSizes(counts: seq<uint64>, folderSizes: seq<uint64>, sizes: seq<uint64>): seq<byte>
    requires |counts| == |folderSizes| && Partition(counts, folderSizes, sizes)
    decreases |counts|
  {
    if counts == [] then []
    else if counts[0] == 0 then WrittenSizes(counts[1..], folderSizes[1..], sizes)
    else
      Io.UInt64sBytes(sizes[..counts[0] - 1]) + WrittenSizes(counts[1..], folderSizes[1..], sizes[counts[0]..])
  }

  /** The section after its 0x08 tag, always with the counts and the sizes. */
  function Serialized(ss: SubStreams, folderSizes: seq<uint64>, folderCrc: seq<bool>): seq<byte>
    requires Valid(ss, folderSizes, folderCrc)
  {
    [Property.NUM_UNPACK_STREAM] + (Io.UInt64sBytes(ss.counts) + ([Property.SIZE]
    + (WrittenSizes(ss.counts, folderSizes, ss.sizes) + (Io.DigestsPart(ss.digests) + [Property.END]))))
  }

  // ---------------------------------------------------------------------------
  // Round trip

  lemma {:induction false} StreamSizesRoundTrip(counts: seq<uint64>, folderSizes: seq<uint64>, sizes: seq<uint64>,
                                                rest: seq<byte>, acc: seq<uint64>)
    requires |counts| == |folderSizes| && Partition(counts, folderSizes, sizes)
    ensures StreamSizes(WrittenSizes(counts, folderSizes, sizes) + rest, counts, folderSizes, acc) == Ok((acc + sizes, rest))
    decreases |counts|
  {
    if counts == [] {
      assert acc + sizes == acc;
      assert WrittenSizes(counts, folderSizes, sizes) + rest == rest;
    } else if counts[0] == 0 {
      assert sizes[0..] == sizes;
      StreamSizesRoundTrip(counts[1..], folderSizes[1..], sizes, rest, acc);
    } else {
      var c := counts[0] as nat;
      StreamSizesRoundTrip(counts[1..], folderSizes[1..], sizes[c..], rest, acc + sizes[..c]);
      StreamSizesHead(counts, folderSizes, sizes, rest, acc);
    }
  }

  lemma StreamSizesHead(counts: seq<uint64>, folderSizes: seq<uint64>, sizes: seq<uint64>, rest: seq<byte>, acc: seq<uint64>)
    requires |counts| == |folderSizes| && Partition(counts, folderSizes, sizes) && counts != [] && counts[0] > 0
    requires StreamSizes(WrittenSizes(counts[1..], folderSizes[1..], sizes[counts[0]..]) + rest, counts[1..], folderSizes[1..],
        acc + sizes[..counts[0]]) == Ok((acc + sizes[..counts[0]] + sizes[counts[0]..], rest))
    ensures StreamSizes(WrittenSizes(counts, folderSizes, sizes) + rest, counts, folderSizes, acc) == Ok((acc + sizes, rest))
  {
    var c := counts[0] as nat;
    WrittenSizesCons(counts, folderSizes, sizes, rest);
    GroupSplit(counts, folderSizes, sizes, acc);
    SplitAt(acc, sizes, c);
    StreamSizesGroup(WrittenSizes(counts, folderSizes, sizes) + rest, WrittenSizes(counts[1..], folderSizes[1..], sizes[c..]) + rest,
      counts, folderSizes, acc, sizes[..c - 1], sizes[..c], acc + sizes, rest);
  }

  lemma SplitAt(acc: seq<uint64>, xs: seq<uint64>, c: nat)
    requires c <= |xs|
    ensures acc + xs[..c] + xs[c..] == acc + xs
  {
    assert xs[..c] + xs[c..] == xs;
  }

  /** One folder's written sizes read back, whatever the sizes after them. */
  lemma StreamSizesGroup(s: seq<byte>, tail: seq<byte>, counts: seq<uint64>, folderSizes: seq<uint64>, acc: seq<uint64>,
                         xs: seq<uint64>, group: seq<uint64>, result: seq<uint64>, rest: seq<byte>)
    requires |counts| == |folderSizes| && counts != [] && counts[0] > 0 && |xs| == counts[0] as nat - 1
    requires s == Io.UInt64sBytes(xs) + tail && Sum(xs) <= folderSizes[0] as nat
    requires acc + xs + [folderSizes[0] - Sum(xs) as uint64] == acc + group
    requires StreamSizes(tail, counts[1..], folderSizes[1..], acc + group) == Ok((result, rest))
    ensures StreamSizes(s, counts, folderSizes, acc) == Ok((result, rest))
  {
    Io.UInt64sRoundTrip(xs, tail, []);
    assert [] + xs == xs;
    StreamSizesStep(s, counts, folderSizes, acc);
  }

  /** The bytes of the first folder's sizes come first. */
  lemma WrittenSizesCons(counts: seq<uint64>, folderSizes: seq<uint64>, sizes: seq<uint64>, rest: seq<byte>)
    requires |counts| == |folderSizes| && Partition(counts, folderSizes, sizes) && counts != [] && counts[0] > 0
    ensures WrittenSizes(counts, folderSizes, sizes) + rest
      == Io.UInt64sBytes(sizes[..counts[0] - 1]) + (WrittenSizes(counts[1..], folderSizes[1..], sizes[counts[0]..]) + rest)
  {
    AppendAssoc(Io.UInt64sBytes(sizes[..counts[0] - 1]), WrittenSizes(counts[1..], folderSizes[1..], sizes[counts[0]..]), rest);
  }

  /** The first group is the sizes written and the one derived from them. */
  lemma GroupSplit(counts: seq<uint64>, folderSizes: seq<uint64>, sizes: seq<uint64>, acc: seq<uint64>)
    requires |counts| == |folderSizes| && Partition(counts, folderSizes, sizes) && counts != [] && counts[0] > 0
    ensures Sum(sizes[..counts[0] - 1]) <= folderSizes[0] as nat
    ensures acc + sizes[..counts[0] - 1] + [folderSizes[0] - Sum(sizes[..counts[0] - 1]) as uint64] == acc + sizes[..counts[0]]
  {
    var c := counts[0] as nat;
    var xs := sizes[..c - 1];
    assert sizes[..c] == xs + [sizes[c - 1]];
    SumSnoc(xs, sizes[c - 1]);
  }

  /** Every section the reader accepts is read back from its serialization, and
      the bytes after it are left unread. */
  lemma ParseSerialized(ss: SubStreams, folderSizes: seq<uint64>, folderCrc: seq<bool>, rest: seq<byte>)
    requires Valid(ss, folderSizes, folderCrc)
    ensures Parse(Serialized(ss, folderSizes, folderCrc) + rest, folderSizes, folderCrc) == Ok((ss, rest))
  {
    var t4 := Io.DigestsPart(ss.digests) + ([Property.END] + rest);
    var t3 := WrittenSizes(ss.counts, folderSizes, ss.sizes) + t4;
    var t2 := [Property.SIZE] + t3;
    var t1 := Io.UInt64sBytes(ss.counts) + t2;
    SerializedSplit(ss, folderSizes, folderCrc, rest);
    TakeByteCons(Property.NUM_UNPACK_STREAM, t1);
    Io.UInt64sRoundTrip(ss.counts, t2, []);
    assert [] + ss.counts == ss.counts;
    TakeByteCons(Property.SIZE, t3);
    AfterCountsSerialized(ss, folderSizes, folderCrc, t3, t4, rest);
  }

  lemma AfterCountsSerialized(ss: SubStreams, folderSizes: seq<uint64>, folderCrc: seq<bool>,
                              t3: seq<byte>, t4: seq<byte>, rest: seq<byte>)
    requires Valid(ss, folderSizes, folderCrc)
    requires t4 == Io.DigestsPart(ss.digests) + ([Property.END] + rest)
    requires t3 == WrittenSizes(ss.counts, folderSizes, ss.sizes) + t4
    ensures AfterCounts(ss.counts, Property.SIZE, t3, folderSizes, folderCrc) == Ok((ss, rest))
  {
    StreamSizesRoundTrip(ss.counts, folderSizes, ss.sizes, t4, []);
    assert [] + ss.sizes == ss.sizes;
    Io.DigestsEndRoundTrip(ss.digests, NumDigests(ss.counts, folderCrc), rest);
    assert |t4| > 0 by {
      AppendAssoc(Io.DigestsPart(ss.digests), [Property.END], rest);
    }
    Io.DigestsEndUnfold(t4, NumDigests(ss.counts, folderCrc));
  }

  lemma SerializedSplit(ss: SubStreams, folderSizes: seq<uint64>, folderCrc: seq<bool>, rest: seq<byte>)
    requires Valid(ss, folderSizes, folderCrc)
    ensures Serialized(ss, folderSizes, folderCrc) + rest
      == [Property.NUM_UNPACK_STREAM] + (Io.UInt64sBytes(ss.counts) + ([Property.SIZE]
         + (WrittenSizes(ss.counts, folderSizes, ss.sizes) + (Io.DigestsPart(ss.digests) + ([Property.END] + rest)))))
  {
    var e := Io.DigestsPart(ss.digests) + [Property.END];
    var d := WrittenSizes(ss.counts, folderSizes, ss.sizes) + e;
    var c := [Property.SIZE] + d;
    var b := Io.UInt64sBytes(ss.counts) + c;
    AppendAssoc([Property.NUM_UNPACK_STREAM], b, rest);
    AppendAssoc(Io.UInt64sBytes(ss.counts), c, rest);
    AppendAssoc([Property.SIZE], d, rest);
    AppendAssoc(WrittenSizes(ss.counts, folderSizes, ss.sizes), e, rest);
    AppendAssoc(Io.DigestsPart(ss.digests), [Property.END], rest);
  }
}
