/** The primitive readers and writers of the header codec (`py7zr.io`): integers,
    bit vectors and CRC lists, each as a parse of the unread bytes of a buffer,
    and as the method that moves the cursor of a `ByteReader` or appends to a
    `ByteWriter`. */
module Io {
  import opened Bytes
  import VarInt
  import BitVector
  import opened BytesIO
  import Property

  // ---------------------------------------------------------------------------
  // Parses of the unread bytes

  /** A little-endian 4-byte field (CRC32, attribute word). */
  function UInt32(s: seq<byte>): (r: Result<(uint32, seq<byte>)>)
    ensures r.Ok? <==> 4 <= |s|
    ensures r.Ok? ==> |r.value.1| == |s| - 4 && LeBytes(r.value.0, 4) + r.value.1 == s
  {
    var b :- Take(s, 4);
    LeValueBound(b.0);
    LeBytesOfValue(b.0);
    Ok((LeValue(b.0), b.1))
  }

  /** A little-endian 8-byte field (offsets and sizes of the signature header,
      FILETIME stamps). */
  function RealUInt64(s: seq<byte>): (r: Result<(uint64, seq<byte>)>)
    ensures r.Ok? <==> 8 <= |s|
    ensures r.Ok? ==> |r.value.1| == |s| - 8 && LeBytes(r.value.0, 8) + r.value.1 == s
  {
    var b :- Take(s, 8);
    LeValueBound(b.0);
    LeBytesOfValue(b.0);
    Ok((LeValue(b.0), b.1))
  }

  /** `n` variable-length integers in a row, appended to `acc`. */
  function UInt64s(s: seq<byte>, n: nat, acc: seq<uint64>): (r: Result<(seq<uint64>, seq<byte>)>)
    ensures r.Ok? ==> |r.value.0| == |acc| + n && |r.value.1| <= |s|
    decreases n
  {
    if n == 0 then Ok((acc, s))
    else
      var x :- VarInt.Decode(s);
      UInt64s(x.1, n - 1, acc + [x.0])
  }

  /** CRCs for the defined entries, in order; `None` for the others. */
  function Crcs(s: seq<byte>, defined: seq<bool>, acc: seq<Option<uint32>>)
    : (r: Result<(seq<Option<uint32>>, seq<byte>)>)
    ensures r.Ok? ==> |r.value.0| == |acc| + |defined| && |r.value.1| <= |s|
    decreases |defined|
  {
    if defined == [] then Ok((acc, s))
    else
      var next :- if defined[0] then
          var c :- UInt32(s);
          Ok((Some(c.0), c.1))
        else Ok((None, s));
      Crcs(next.1, defined[1..], acc + [next.0])
  }

  /** A digest list: an all-defined byte or bit vector saying which of `count`
      entries carry a CRC, then one CRC per defined entry. */
  function Digests(s: seq<byte>, count: nat): (r: Result<(seq<Option<uint32>>, seq<byte>)>)
    ensures r.Ok? ==> |r.value.0| == count && |r.value.1| < |s|
  {
    var d :- BitVector.Read(s, count, true);
    Crcs(d.1, d.0, [])
  }

  // ---------------------------------------------------------------------------
  // What the writers append

  function DefinedOf(ds: seq<Option<uint32>>): (r: seq<bool>)
    ensures |r| == |ds|
  {
    if ds == [] then [] else [ds[0].Some?] + DefinedOf(ds[1..])
  }

  function CrcBytes(ds: seq<Option<uint32>>): seq<byte>
  {
    if ds == [] then []
    else CrcBytesOf(ds[0]) + CrcBytes(ds[1..])
  }

  /** A digest list as written: the explicit defined vector behind a 0x00 marker,
      then the CRCs of the defined entries. */
  function DigestsBytes(ds: seq<Option<uint32>>): seq<byte>
  {
    BitVector.Encoded(DefinedOf(ds), true) + CrcBytes(ds)
  }

  /** The concatenated encodings of `xs`. */
  function UInt64sBytes(xs: seq<uint64>): seq<byte>
  {
    if xs == [] then [] else VarInt.Encode(xs[0]) + UInt64sBytes(xs[1..])
  }

  // ---------------------------------------------------------------------------
  // Round trips of the parses against what the writers append

  lemma UInt32RoundTrip(x: uint32, rest: seq<byte>)
    ensures UInt32(LeBytes(x, 4) + rest) == Ok((x, rest))
  {
    TakeAppend(LeBytes(x, 4), rest);
    LeValueOfBytes(x, 4);
  }

  lemma RealUInt64RoundTrip(x: uint64, rest: seq<byte>)
    ensures RealUInt64(LeBytes(x, 8) + rest) == Ok((x, rest))
  {
    TakeAppend(LeBytes(x, 8), rest);
    LeValueOfBytes(x, 8);
  }

  /** The integers written in a row read back in order. */
  lemma {:induction false} UInt64sRoundTrip(xs: seq<uint64>, rest: seq<byte>, acc: seq<uint64>)
    ensures UInt64s(UInt64sBytes(xs) + rest, |xs|, acc) == Ok((acc + xs, rest))
    decreases |xs|
  {
    if xs == [] {
      UInt64sNone(xs, rest, acc);
    } else {
      UInt64sRoundTrip(xs[1..], rest, acc + [xs[0]]);
      UInt64sHead(xs, rest, acc);
    }
  }

  lemma UInt64sNone(xs: seq<uint64>, rest: seq<byte>, acc: seq<uint64>)
    requires xs == []
    ensures UInt64s(UInt64sBytes(xs) + rest, |xs|, acc) == Ok((acc + xs, rest))
  {
    assert acc + xs == acc;
    assert UInt64sBytes(xs) + rest == rest;
  }

  /** The first integer reads back, and the rest of the list follows it. */
  lemma UInt64sHead(xs: seq<uint64>, rest: seq<byte>, acc: seq<uint64>)
    requires xs != []
    requires UInt64s(UInt64sBytes(xs[1..]) + rest, |xs| - 1, acc + [xs[0]]) == Ok((acc + [xs[0]] + xs[1..], rest))
    ensures UInt64s(UInt64sBytes(xs) + rest, |xs|, acc) == Ok((acc + xs, rest))
  {
    UInt64sBytesCons(xs, rest);
    VarInt.DecodeEncode(xs[0], UInt64sBytes(xs[1..]) + rest);
    AppendHead(acc, xs);
  }

  lemma AppendHead<T>(acc: seq<T>, xs: seq<T>)
    requires xs != []
    ensures acc + [xs[0]] + xs[1..] == acc + xs
  {
  }

  lemma UInt64sBytesCons(xs: seq<uint64>, rest: seq<byte>)
    requires xs != []
    ensures UInt64sBytes(xs) + rest == VarInt.Encode(xs[0]) + (UInt64sBytes(xs[1..]) + rest)
  {
  }

  function CrcBytesOf(d: Option<uint32>): seq<byte>
  {
    if d.Some? then LeBytes(d.value, 4) else []
  }

  /** The CRCs written for the defined entries read back, each entry in place. */
  lemma {:induction false} CrcsRoundTrip(ds: seq<Option<uint32>>, rest: seq<byte>, acc: seq<Option<uint32>>)
    ensures Crcs(CrcBytes(ds) + rest, DefinedOf(ds), acc) == Ok((acc + ds, rest))
    decreases |ds|
  {
    if ds == [] {
      CrcsNone(ds, rest, acc);
    } else {
      CrcsRoundTrip(ds[1..], rest, acc + [ds[0]]);
      CrcsHead(ds, rest, acc);
    }
  }

  lemma CrcsNone(ds: seq<Option<uint32>>, rest: seq<byte>, acc: seq<Option<uint32>>)
    requires ds == []
    ensures Crcs(CrcBytes(ds) + rest, DefinedOf(ds), acc) == Ok((acc + ds, rest))
  {
    assert acc + ds == acc;
    assert CrcBytes(ds) + rest == rest;
  }

  /** The first entry reads back, and the rest follows it. */
  lemma CrcsHead(ds: seq<Option<uint32>>, rest: seq<byte>, acc: seq<Option<uint32>>)
    requires ds != []
    requires Crcs(CrcBytes(ds[1..]) + rest, DefinedOf(ds)[1..], acc + [ds[0]]) == Ok((acc + [ds[0]] + ds[1..], rest))
    ensures Crcs(CrcBytes(ds) + rest, DefinedOf(ds), acc) == Ok((acc + ds, rest))
  {
    CrcBytesCons(ds, rest);
    if ds[0].Some? {
      UInt32RoundTrip(ds[0].value, CrcBytes(ds[1..]) + rest);
    }
    AppendHead(acc, ds);
  }

  lemma CrcBytesCons(ds: seq<Option<uint32>>, rest: seq<byte>)
    requires ds != []
    ensures CrcBytes(ds) + rest == CrcBytesOf(ds[0]) + (CrcBytes(ds[1..]) + rest)
    ensures ds[0].None? ==> CrcBytes(ds) + rest == CrcBytes(ds[1..]) + rest
  {
  }

  /** The digest list written for `ds` reads back as `ds`. */
  /** Every entry defined: the defined vector is all true. */
  lemma DefinedOfAll(ds: seq<Option<uint32>>)
    requires forall i | 0 <= i < |ds| :: ds[i].Some?
    ensures DefinedOf(ds) == BitVector.AllTrue(|ds|)
  {
    DefinedOfAt(ds);
  }

  lemma {:induction false} DefinedOfAt(ds: seq<Option<uint32>>)
    ensures forall i | 0 <= i < |ds| :: DefinedOf(ds)[i] == ds[i].Some?
    decreases |ds|
  {
    if ds != [] {
      DefinedOfAt(ds[1..]);
    }
  }

  /** The all-defined form of a digest list: 0x01 in place of the bit vector,
      then every CRC. A list with every entry defined reads back from it. */
  lemma DigestsAllDefined(ds: seq<Option<uint32>>, rest: seq<byte>)
    requires forall i | 0 <= i < |ds| :: ds[i].Some?
    ensures Digests([0x01] + (CrcBytes(ds) + rest), |ds|) == Ok((ds, rest))
  {
    var s := [0x01] + (CrcBytes(ds) + rest);
    assert s[1..] == CrcBytes(ds) + rest;
    DefinedOfAll(ds);
    CrcsRoundTrip(ds, rest, []);
    assert [] + ds == ds;
  }

  lemma DigestsRoundTrip(ds: seq<Option<uint32>>, rest: seq<byte>)
    ensures Digests(DigestsBytes(ds) + rest, |ds|) == Ok((ds, rest))
  {
    var d := DefinedOf(ds);
    var tail := CrcBytes(ds) + rest;
    assert DigestsBytes(ds) + rest == BitVector.Encoded(d, true) + tail;
    BitVector.ReadEncoded(d, true, tail);
    CrcsRoundTrip(ds, rest, []);
    assert [] + ds == ds;
  }

  // ---------------------------------------------------------------------------
  // The optional kCRC block that closes a section

  /** The optional kCRC digest list for `count` entries, then END. Any other
      property in place of kCRC is refused. */
  function DigestsEnd(s: seq<byte>, count: nat): (r: Result<(Option<seq<Option<uint32>>>, seq<byte>)>)
    ensures r.Ok? ==> (r.value.0.Some? ==> |r.value.0.value| == count) && |r.value.1| < |s|
    ensures |s| > 0 && s[0] != Property.CRC && s[0] != Property.END ==> r == Err(UnexpectedProperty(s[0]))
  {
    var tag :- TakeByte(s);
    DigestsAfter(tag.0, tag.1, count)
  }

  lemma DigestsEndUnfold(s: seq<byte>, count: nat)
    requires |s| > 0
    ensures DigestsEnd(s, count) == DigestsAfter(s[0], s[1..], count)
  {
  }

  /** The same, once the property id `pid` has been read. */
  function DigestsAfter(pid: byte, s: seq<byte>, count: nat): (r: Result<(Option<seq<Option<uint32>>>, seq<byte>)>)
    ensures r.Ok? ==> (r.value.0.Some? ==> |r.value.0.value| == count) && |r.value.1| <= |s|
    ensures r.Ok? ==> (r.value.0.Some? <==> pid == Property.CRC) && (r.value.0.None? <==> pid == Property.END)
    ensures pid != Property.CRC && pid != Property.END ==> r == Err(UnexpectedProperty(pid))
  {
    if pid == Property.CRC then
      var digests :- Digests(s, count);
      var end :- Property.Expect(digests.1, Property.END);
      Ok((Some(digests.0), end))
    else if pid == Property.END then
      Ok((None, s))
    else
      Err(UnexpectedProperty(pid))
  }

  /** A kCRC block in the all-defined form, then END. */
  lemma DigestsEndAllDefined(ds: seq<Option<uint32>>, rest: seq<byte>)
    requires forall i | 0 <= i < |ds| :: ds[i].Some?
    ensures DigestsEnd([Property.CRC] + ([0x01] + (CrcBytes(ds) + ([Property.END] + rest))), |ds|) == Ok((Some(ds), rest))
  {
    var t := [0x01] + (CrcBytes(ds) + ([Property.END] + rest));
    TakeByteCons(Property.CRC, t);
    DigestsAllDefined(ds, [Property.END] + rest);
    Property.ExpectCons(Property.END, rest);
  }

  function DigestsPart(ds: Option<seq<Option<uint32>>>): seq<byte>
  {
    if ds.Some? then [Property.CRC] + DigestsBytes(ds.value) else []
  }

  /** The digests part as written reads back, END included. */
  lemma DigestsEndRoundTrip(ds: Option<seq<Option<uint32>>>, count: nat, rest: seq<byte>)
    requires ds.Some? ==> |ds.value| == count
    ensures DigestsEnd(DigestsPart(ds) + ([Property.END] + rest), count) == Ok((ds, rest))
  {
    if ds.Some? {
      CrcBlockRoundTrip(ds.value, rest);
      assert DigestsPart(ds) == [Property.CRC] + DigestsBytes(ds.value);
    } else {
      assert DigestsPart(ds) + ([Property.END] + rest) == [Property.END] + rest;
      TakeByteCons(Property.END, rest);
    }
  }

  lemma CrcBlockRoundTrip(ds: seq<Option<uint32>>, rest: seq<byte>)
    ensures DigestsEnd([Property.CRC] + DigestsBytes(ds) + ([Property.END] + rest), |ds|) == Ok((Some(ds), rest))
  {
    var body := DigestsBytes(ds);
    assert [Property.CRC] + body + ([Property.END] + rest) == [Property.CRC] + (body + ([Property.END] + rest));
    TakeByteCons(Property.CRC, body + ([Property.END] + rest));
    DigestsRoundTrip(ds, [Property.END] + rest);
    Property.ExpectCons(Property.END, rest);
  }

  /** The optional kCRC block and END on a reader. */
  method ReadDigestsEnd(f: ByteReader, count: nat) returns (res: Result<Option<seq<Option<uint32>>>>)
    modifies f
    ensures f.Follows(res, DigestsEnd(old(f.rest), count))
  {
    var tag :- f.ReadByte();
    res := ReadDigestsAfter(f, tag, count);
  }

  method ReadDigestsAfter(f: ByteReader, pid: byte, count: nat) returns (res: Result<Option<seq<Option<uint32>>>>)
    modifies f
    ensures f.Follows(res, DigestsAfter(pid, old(f.rest), count))
  {
    if pid == Property.CRC {
      var digests :- ReadDigests(f, count);
      var end :- f.ReadByte();
      if end != Property.END {
        return Err(UnexpectedProperty(end));
      }
      return Ok(Some(digests));
    } else if pid == Property.END {
      return Ok(None);
    } else {
      return Err(UnexpectedProperty(pid));
    }
  }

  // ---------------------------------------------------------------------------
  // The readers

  /** A first byte whose `n` leading bits are set and whose next bit is clear
      (or that has all eight set) announces `n` extra bytes. */
  lemma LeadingOnesByMask(b: byte, n: nat)
    requires n <= 8 && b >= VarInt.Prefix(n)
    requires n < 8 ==> (b / BitVector.Mask(n)) % 2 == 0
    ensures VarInt.LeadingOnes(b) == n
  {
    match n
    case 0 =>
    case 1 =>
    case 2 =>
    case 3 =>
    case 4 =>
    case 5 =>
    case 6 =>
    case 7 =>
    case 8 =>
  }

  lemma PrefixStep(b: byte, n: nat)
    requires n < 8 && b >= VarInt.Prefix(n) && (b / BitVector.Mask(n)) % 2 == 1
    ensures b >= VarInt.Prefix(n + 1) && BitVector.Mask(n) / 2 == BitVector.Mask(n + 1)
  {
    match n
    case 0 =>
    case 1 =>
    case 2 =>
    case 3 =>
    case 4 =>
    case 5 =>
    case 6 =>
    case 7 =>
  }

  /** `read_uint64`: counts the leading one-bits of the first byte, then combines
      that many further bytes, most significant first, under its remaining bits. */
  method ReadUInt64(f: ByteReader) returns (res: Result<uint64>)
    modifies f
    ensures f.Follows(res, VarInt.Decode(old(f.rest)))
  {
    ghost var s := f.rest;
    var first :- f.ReadByte();
    ghost var s1 := f.rest;
    assert s == [first] + s1;
    var n := 0;
    var mask := 0x80;
    while n < 8 && (first / mask) % 2 == 1
      invariant n <= 8 && mask == BitVector.Mask(n)
      invariant first >= VarInt.Prefix(n)
      invariant f.rest == s1
    {
      PrefixStep(first, n);
      n := n + 1;
      mask := mask / 2;
    }
    LeadingOnesByMask(first, n);
    var extra :- f.Read(n);
    assert s1 == extra + f.rest;
    assert s[1..1 + n] == extra && s[1 + n..] == f.rest;
    var digits := [first - VarInt.Prefix(n)] + extra;
    assert digits == VarInt.Digits(s, n);
    VarInt.DigitsBound(s, n);
    VarInt.LimitMonotone(n, 8);
    var value := BigEndianValue(digits);
    res := Ok(value);
  }

  /** The big-endian value of `digits`, accumulated one byte at a time. */
  method BigEndianValue(digits: seq<byte>) returns (value: nat)
    requires |digits| >= 1
    ensures value == BeValue(digits)
  {
    value := digits[0];
    var i := 1;
    assert digits[..1] == [digits[0]];
    while i < |digits|
      invariant 1 <= i <= |digits| && value == BeValue(digits[..i])
    {
      assert digits[..i + 1][..i] == digits[..i];
      value := value * 256 + digits[i];
      i := i + 1;
    }
    assert digits[..|digits|] == digits;
  }

  /** `read_uint32`. */
  method ReadUInt32(f: ByteReader) returns (res: Result<uint32>)
    modifies f
    ensures f.Follows(res, UInt32(old(f.rest)))
  {
    var b :- f.Read(4);
    LeValueBound(b);
    res := Ok(LeValue(b));
  }

  /** `read_real_uint64`. */
  method ReadRealUInt64(f: ByteReader) returns (res: Result<uint64>)
    modifies f
    ensures f.Follows(res, RealUInt64(old(f.rest)))
  {
    var b :- f.Read(8);
    LeValueBound(b);
    res := Ok(LeValue(b));
  }

  /** `read_boolean`: with `checkAll`, a leading byte that is not 0x00 stands for
      `count` true values. */
  method ReadBoolean(f: ByteReader, count: nat, checkAll: bool) returns (res: Result<seq<bool>>)
    modifies f
    ensures f.Follows(res, BitVector.Read(old(f.rest), count, checkAll))
  {
    if checkAll {
      var allDefined :- f.ReadByte();
      if allDefined != 0 {
        res := Ok(BitVector.AllTrue(count));
        return;
      }
    }
    res := ReadBits(f, count);
  }

  /** The loop of `read_boolean`: a new byte whenever the mask runs out, one bit
      per element. */
  method ReadBits(f: ByteReader, count: nat) returns (res: Result<seq<bool>>)
    modifies f
    ensures f.Follows(res, BitVector.Unpack(old(f.rest), count))
  {
    ghost var s := f.rest;
    var result: seq<bool> := [];
    var b: byte := 0;
    var mask := 0;
    var i := 0;
    ghost var k, j := 0, 0;  // k whole bytes used, and j bits of the next one
    while i < count
      invariant i <= count && j < 8 && i == 8 * k + j
      invariant k + (if j > 0 then 1 else 0) <= |s|
      invariant f.rest == s[k + (if j > 0 then 1 else 0)..]
      invariant mask == if j == 0 then 0 else BitVector.Mask(j)
      invariant j > 0 ==> b == s[k]
      invariant result == BitVector.Bits(s, k, j)
    {
      if mask == 0 {
        b :- f.ReadByte();
        assert s[k..][1..] == s[k + 1..];
        mask := 0x80;
      }
      BitVector.MaskStep(j);
      result := result + [(b / mask) % 2 == 1];
      mask := mask / 2;
      i := i + 1;
      if j == 7 {
        k, j := k + 1, 0;
      } else {
        j := j + 1;
      }
    }
    BitVector.BytesUsed(k, j);
    res := Ok(result);
  }

  /** `[read_uint64(file) for _ in range(n)]`. */
  method ReadUInt64s(f: ByteReader, n: nat) returns (res: Result<seq<uint64>>)
    modifies f
    ensures f.Follows(res, UInt64s(old(f.rest), n, []))
  {
    var acc: seq<uint64> := [];
    var i := 0;
    while i < n
      invariant i <= n
      invariant UInt64s(f.rest, n - i, acc) == UInt64s(old(f.rest), n, [])
    {
      var x :- ReadUInt64(f);
      acc := acc + [x];
      i := i + 1;
    }
    res := Ok(acc);
  }

  /** The defined vector of a digest list, then `read_uint32` for each defined entry. */
  method ReadDigests(f: ByteReader, count: nat) returns (res: Result<seq<Option<uint32>>>)
    modifies f
    ensures f.Follows(res, Digests(old(f.rest), count))
  {
    var defined :- ReadBoolean(f, count, true);
    var acc: seq<Option<uint32>> := [];
    var i := 0;
    while i < |defined|
      invariant i <= |defined|
      invariant Crcs(f.rest, defined[i..], acc) == Digests(old(f.rest), count)
    {
      assert defined[i..][1..] == defined[i + 1..];
      if defined[i] {
        var crc :- ReadUInt32(f);
        acc := acc + [Some(crc)];
      } else {
        acc := acc + [None];
      }
      i := i + 1;
    }
    res := Ok(acc);
  }

  // ---------------------------------------------------------------------------
  // The writers

  /** `write_uint64`: appends `encode_uint64(v)`. */
  method WriteUInt64(f: ByteWriter, v: uint64)
    modifies f
    ensures f.buf == old(f.buf) + VarInt.Encode(v)
  {
    f.Write(VarInt.Encode(v));
  }

  /** `write_uint32`: four bytes, least significant first. */
  method WriteUInt32(f: ByteWriter, v: uint32)
    modifies f
    ensures f.buf == old(f.buf) + LeBytes(v, 4)
  {
    f.Write(LeBytes(v, 4));
  }

  /** `write_boolean`: the optional 0x00 marker, then the elements gathered into a
      byte under a moving mask, each full byte written as soon as it is complete
      and a partly filled last byte written with its low bits zero. */
  method WriteBoolean(f: ByteWriter, booleans: seq<bool>, allDefined: bool)
    modifies f
    ensures f.buf == old(f.buf) + BitVector.Encoded(booleans, allDefined)
  {
    if allDefined {
      f.WriteByte(0x00);
    }
    ghost var start := f.buf;
    ghost var g := 0;  // how many bytes are complete
    ghost var k := 0;  // where the byte being filled starts
    var b: byte := 0;
    var mask := 0x80;
    ghost var j := 0;  // how many of its bits are used
    var i := 0;
    while i < |booleans|
      invariant i <= |booleans| && i == k + j && k == 8 * g && j < 8
      invariant f.buf == start + Packed(booleans, g)
      invariant mask == BitVector.Mask(j)
      invariant b == BitVector.PackByte(booleans, k, j)
    {
      if booleans[i] {
        // the bit under `mask` is still clear, so `b |= mask` adds it
        b := b + mask;
      }
      BitVector.MaskStep(j);
      mask := mask / 2;
      j := j + 1;
      i := i + 1;
      if mask == 0 {
        PackedStep(start, booleans, g);
        f.WriteByte(b);
        b, mask, j, k, g := 0, 0x80, 0, i, g + 1;
      }
    }
    BitVector.MaskStep(j);
    if mask != 0x80 {
      f.WriteByte(b);
    }
    Finished(old(f.buf), start, booleans, allDefined, g, j);
  }


  /** The first `g` whole bytes of the packing, as the loop of `write_boolean`
      completes them. */
  function Packed(bs: seq<bool>, g: nat): (r: seq<byte>)
    requires 8 * g <= |bs|
    ensures |r| == g
  {
    if g == 0 then [] else Packed(bs, g - 1) + [BitVector.PackByte(bs, 8 * (g - 1), 8)]
  }

  lemma PackedStep(start: seq<byte>, bs: seq<bool>, g: nat)
    requires 8 * g + 8 <= |bs|
    ensures start + Packed(bs, g + 1) == start + Packed(bs, g) + [BitVector.PackByte(bs, 8 * g, 8)]
  {
    var p, last := Packed(bs, g), BitVector.PackByte(bs, 8 * g, 8);
    assert start + p + [last] == start + (p + [last]);
  }

  /** The completed bytes followed by the packing of the elements after them are
      the whole packing. */
  lemma {:induction false} PackedRest(bs: seq<bool>, g: nat)
    requires 8 * g <= |bs|
    ensures Packed(bs, g) + BitVector.PackFrom(bs, 8 * g) == BitVector.Pack(bs)
  {
    if g == 0 {
      assert [] + BitVector.PackFrom(bs, 0) == BitVector.PackFrom(bs, 0);
    } else {
      PackedRest(bs, g - 1);
      var p, last := Packed(bs, g - 1), BitVector.PackByte(bs, 8 * (g - 1), 8);
      var rest := BitVector.PackFrom(bs, 8 * g);
      assert BitVector.PackFrom(bs, 8 * (g - 1)) == [last] + rest;
      assert p + [last] + rest == p + ([last] + rest);
    }
  }

  /** With the last byte written, the buffer holds the marker and the packing. */
  lemma Finished(before: seq<byte>, start: seq<byte>, bs: seq<bool>, allDefined: bool, g: nat, j: nat)
    requires start == before + (if allDefined then [0x00] else [])
    requires |bs| == 8 * g + j && j < 8
    ensures start + Packed(bs, g) + (if j == 0 then [] else [BitVector.PackByte(bs, 8 * g, j)])
      == before + BitVector.Encoded(bs, allDefined)
  {
    var p := Packed(bs, g);
    var rest := BitVector.PackFrom(bs, 8 * g);
    assert rest == if j == 0 then [] else [BitVector.PackByte(bs, 8 * g, j)];
    PackedRest(bs, g);
    var marker: seq<byte> := if allDefined then [0x00] else [];
    assert before + marker + p + rest == before + (marker + (p + rest));
  }

  /** A digest list: `write_boolean(defined, all_defined=True)`, then
      `write_uint32` for each defined CRC. */
  method WriteDigests(f: ByteWriter, digests: seq<Option<uint32>>)
    modifies f
    ensures f.buf == old(f.buf) + DigestsBytes(digests)
  {
    WriteBoolean(f, DefinedOf(digests), true);
    ghost var mid := f.buf;
    var i := 0;
    while i < |digests|
      invariant i <= |digests|
      invariant f.buf == mid + CrcBytes(digests[..i])
    {
      CrcBytesStep(mid, digests, i);
      if digests[i].Some? {
        WriteUInt32(f, digests[i].value);
      }
      i := i + 1;
    }
    assert digests[..i] == digests;
    ghost var v, c := BitVector.Encoded(DefinedOf(digests), true), CrcBytes(digests);
    assert old(f.buf) + v + c == old(f.buf) + (v + c);
  }

  lemma CrcBytesStep(mid: seq<byte>, ds: seq<Option<uint32>>, i: nat)
    requires i < |ds|
    ensures mid + CrcBytes(ds[..i + 1]) == mid + CrcBytes(ds[..i]) + CrcBytesOf(ds[i])
  {
    CrcBytesSnoc(ds[..i], ds[i]);
    assert ds[..i + 1] == ds[..i] + [ds[i]];
    var p, q := CrcBytes(ds[..i]), CrcBytesOf(ds[i]);
    assert mid + p + q == mid + (p + q);
  }

  lemma {:induction false} CrcBytesSnoc(ds: seq<Option<uint32>>, d: Option<uint32>)
    ensures CrcBytes(ds + [d]) == CrcBytes(ds) + CrcBytesOf(d)
    decreases |ds|
  {
    if ds == [] {
      assert [] + [d] == [d];
    } else {
      assert (ds + [d])[1..] == ds[1..] + [d];
      CrcBytesSnoc(ds[1..], d);
    }
  }

  lemma UInt64sBytesStep(start: seq<byte>, xs: seq<uint64>, i: nat)
    requires i < |xs|
    ensures start + UInt64sBytes(xs[..i + 1]) == start + UInt64sBytes(xs[..i]) + VarInt.Encode(xs[i])
  {
    UInt64sBytesSnoc(xs[..i], xs[i]);
    assert xs[..i + 1] == xs[..i] + [xs[i]];
    var p, q := UInt64sBytes(xs[..i]), VarInt.Encode(xs[i]);
    assert start + p + q == start + (p + q);
  }

  lemma {:induction false} UInt64sBytesSnoc(xs: seq<uint64>, x: uint64)
    ensures UInt64sBytes(xs + [x]) == UInt64sBytes(xs) + VarInt.Encode(x)
    decreases |xs|
  {
    if xs == [] {
      assert [] + [x] == [x];
    } else {
      assert (xs + [x])[1..] == xs[1..] + [x];
      UInt64sBytesSnoc(xs[1..], x);
    }
  }
}

