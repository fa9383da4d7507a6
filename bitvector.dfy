/** Bit vectors: an ordered list of booleans packed eight to a byte, element 0 in
    the most significant bit of the first byte, the unused low bits of the last
    byte zero. A vector may be preceded by an "all defined" byte: when a reader
    expects one and finds a non-zero byte, every element is true and no vector
    follows; a zero byte means the explicit vector follows. */
module BitVector {
  import opened Bytes

  /** The mask selecting element `j` of a byte: 0x80 >> j, and 0 once all eight
      bits are used. */
  function Mask(j: nat): nat
    requires j <= 8
  {
    match j
    case 0 => 0x80
    case 1 => 0x40
    case 2 => 0x20
    case 3 => 0x10
    case 4 => 0x08
    case 5 => 0x04
    case 6 => 0x02
    case 7 => 0x01
    case 8 => 0x00
  }

  /** `b & mask != 0` for the mask of element `j`. */
  function BitAt(b: byte, j: nat): bool
    requires j < 8
  {
    (b / Mask(j)) % 2 == 1
  }

  lemma MaskHalves(j: nat)
    requires j < 8
    ensures Mask(j) >= 1 && (j > 0 ==> Mask(j - 1) == 2 * Mask(j))
  {
    match j
    case 0 =>
    case 1 =>
    case 2 =>
    case 3 =>
    case 4 =>
    case 5 =>
    case 6 =>
    case 7 =>
  }

  /** Moving to the next element halves the mask; after the eighth it is zero. */
  lemma MaskStep(j: nat)
    requires j < 8
    ensures Mask(j) / 2 == Mask(j + 1)
    ensures Mask(j + 1) == 0 <==> j == 7
    ensures Mask(j) != 0 && (Mask(j) == 0x80 <==> j == 0)
  {
    match j
    case 0 =>
    case 1 =>
    case 2 =>
    case 3 =>
    case 4 =>
    case 5 =>
    case 6 =>
    case 7 =>
  }

  // ---------------------------------------------------------------------------
  // Packing

  /** Elements `k .. k + m` (at most eight) packed into one byte, MSB first, zero
      padded: each true element adds the mask of its position. */
  function PackByte(bs: seq<bool>, k: nat, m: nat): (r: byte)
    requires k + m <= |bs| && m <= 8
    ensures m == 0 || r + Mask(m - 1) <= 0x100
  {
    if m == 0 then 0
    else
      MaskHalves(m - 1);
      PackByte(bs, k, m - 1) + (if bs[k + m - 1] then Mask(m - 1) else 0)
  }

  /** The packed bytes of the elements from `k` on: one byte per started group of
      eight. */
  function PackFrom(bs: seq<bool>, k: nat): seq<byte>
    requires k <= |bs|
    decreases |bs| - k
  {
    if |bs| - k <= 8 then
      if k == |bs| then [] else [PackByte(bs, k, |bs| - k)]
    else
      [PackByte(bs, k, 8)] + PackFrom(bs, k + 8)
  }

  /** The packed bytes of a whole vector. */
  function Pack(bs: seq<bool>): seq<byte>
  {
    PackFrom(bs, 0)
  }

  /** What `write_boolean` appends: the optional 0x00 marker, then the packed vector. */
  function Encoded(bs: seq<bool>, allDefined: bool): seq<byte>
  {
    (if allDefined then [0x00] else []) + Pack(bs)
  }

  /** The elements from `k` on pack into one byte per started group of eight. */
  lemma {:induction false} PackLength(bs: seq<bool>, k: nat)
    requires k <= |bs|
    ensures |PackFrom(bs, k)| == (|bs| - k + 7) / 8
    decreases |bs| - k
  {
    if |bs| - k > 8 {
      PackLength(bs, k + 8);
    }
  }

  /** Byte `q` of the packing from `k` holds elements `k + 8q ..`, eight of them
      or what is left. */
  lemma {:induction false} PackAt(bs: seq<bool>, k: nat, q: nat)
    requires k + 8 * q < |bs|
    ensures q < |PackFrom(bs, k)|
    ensures PackFrom(bs, k)[q]
      == PackByte(bs, k + 8 * q, if |bs| - k - 8 * q <= 8 then |bs| - k - 8 * q else 8)
    decreases q
  {
    if q > 0 {
      PackAt(bs, k + 8, q - 1);
    }
  }

  // ---------------------------------------------------------------------------
  // The bits of a packed byte

  /** Element `r` of the `m` elements at `k`, as a digit; 0 past the end. */
  function Bit(bs: seq<bool>, k: nat, m: nat, r: nat): (d: nat)
    requires k + m <= |bs|
    ensures d < 2
  {
    if r < m && bs[k + r] then 1 else 0
  }

  /** The same byte as a weighted sum of its eight bit positions. */
  function Weighted(bs: seq<bool>, k: nat, m: nat): nat
    requires k + m <= |bs|
  {
    128 * Bit(bs, k, m, 0) + 64 * Bit(bs, k, m, 1) + 32 * Bit(bs, k, m, 2) + 16 * Bit(bs, k, m, 3)
    + 8 * Bit(bs, k, m, 4) + 4 * Bit(bs, k, m, 5) + 2 * Bit(bs, k, m, 6) + Bit(bs, k, m, 7)
  }

  /** The bits before position `j`, as a number. */
  function Above(bs: seq<bool>, k: nat, m: nat, j: nat): nat
    requires k + m <= |bs| && j < 8
  {
    var d0, d1, d2, d3 := Bit(bs, k, m, 0), Bit(bs, k, m, 1), Bit(bs, k, m, 2), Bit(bs, k, m, 3);
    var d4, d5, d6 := Bit(bs, k, m, 4), Bit(bs, k, m, 5), Bit(bs, k, m, 6);
    match j
    case 0 => 0
    case 1 => d0
    case 2 => 2 * d0 + d1
    case 3 => 4 * d0 + 2 * d1 + d2
    case 4 => 8 * d0 + 4 * d1 + 2 * d2 + d3
    case 5 => 16 * d0 + 8 * d1 + 4 * d2 + 2 * d3 + d4
    case 6 => 32 * d0 + 16 * d1 + 8 * d2 + 4 * d3 + 2 * d4 + d5
    case 7 => 64 * d0 + 32 * d1 + 16 * d2 + 8 * d3 + 4 * d4 + 2 * d5 + d6
  }

  /** The weight of the bits after position `j`. */
  function Below(bs: seq<bool>, k: nat, m: nat, j: nat): nat
    requires k + m <= |bs| && j < 8
  {
    var d1, d2, d3, d4 := Bit(bs, k, m, 1), Bit(bs, k, m, 2), Bit(bs, k, m, 3), Bit(bs, k, m, 4);
    var d5, d6, d7 := Bit(bs, k, m, 5), Bit(bs, k, m, 6), Bit(bs, k, m, 7);
    match j
    case 0 => 64 * d1 + 32 * d2 + 16 * d3 + 8 * d4 + 4 * d5 + 2 * d6 + d7
    case 1 => 32 * d2 + 16 * d3 + 8 * d4 + 4 * d5 + 2 * d6 + d7
    case 2 => 16 * d3 + 8 * d4 + 4 * d5 + 2 * d6 + d7
    case 3 => 8 * d4 + 4 * d5 + 2 * d6 + d7
    case 4 => 4 * d5 + 2 * d6 + d7
    case 5 => 2 * d6 + d7
    case 6 => d7
    case 7 => 0
  }

  /** A byte splits at bit `j` into the bits above, bit `j` and the bits below. */
  lemma WeightedSplit(bs: seq<bool>, k: nat, m: nat, j: nat)
    requires k + m <= |bs| && j < 8
    ensures Weighted(bs, k, m) == (2 * Above(bs, k, m, j) + Bit(bs, k, m, j)) * Mask(j) + Below(bs, k, m, j)
    ensures Below(bs, k, m, j) < Mask(j)
  {
    match j
    case 0 =>
    case 1 =>
    case 2 =>
    case 3 =>
    case 4 =>
    case 5 =>
    case 6 =>
    case 7 =>
  }

  /** A byte that splits at bit `j` into `hi`, the digit `d` and `lo` has `d` as
      bit `j`. */
  lemma Extract(x: nat, hi: nat, d: nat, lo: nat, j: nat)
    requires j < 8 && d < 2 && lo < Mask(j) && x == (2 * hi + d) * Mask(j) + lo && x < 0x100
    ensures BitAt(x, j) == (d == 1)
  {
    MaskStep(j);
    DivModUnique(x, Mask(j), 2 * hi + d, lo);
  }

  lemma WeightedBit(bs: seq<bool>, k: nat, m: nat, j: nat)
    requires k + m <= |bs| && j < 8 && Weighted(bs, k, m) < 0x100
    ensures BitAt(Weighted(bs, k, m), j) == (j < m && bs[k + j])
  {
    WeightedSplit(bs, k, m, j);
    Extract(Weighted(bs, k, m), Above(bs, k, m, j), Bit(bs, k, m, j), Below(bs, k, m, j), j);
  }

  /** Taking one more element into a byte sets exactly its mask bit. */
  lemma WeightedSnoc(bs: seq<bool>, k: nat, m: nat)
    requires m < 8 && k + m < |bs|
    ensures Weighted(bs, k, m + 1) == Weighted(bs, k, m) + (if bs[k + m] then Mask(m) else 0)
  {
    BitGrow(bs, k, m, 0);
    BitGrow(bs, k, m, 1);
    BitGrow(bs, k, m, 2);
    BitGrow(bs, k, m, 3);
    BitGrow(bs, k, m, 4);
    BitGrow(bs, k, m, 5);
    BitGrow(bs, k, m, 6);
    BitGrow(bs, k, m, 7);
    match m
    case 0 =>
    case 1 =>
    case 2 =>
    case 3 =>
    case 4 =>
    case 5 =>
    case 6 =>
    case 7 =>
  }

  /** Only the new element's digit changes when a byte takes one more element. */
  lemma BitGrow(bs: seq<bool>, k: nat, m: nat, r: nat)
    requires k + m < |bs|
    ensures Bit(bs, k, m + 1, r) == Bit(bs, k, m, r) + (if r == m && bs[k + m] then 1 else 0)
  {
  }

  lemma {:induction false} PackByteWeighted(bs: seq<bool>, k: nat, m: nat)
    requires k + m <= |bs| && m <= 8
    ensures PackByte(bs, k, m) == Weighted(bs, k, m)
  {
    if m > 0 {
      PackByteWeighted(bs, k, m - 1);
      WeightedSnoc(bs, k, m - 1);
    }
  }

  /** Element `j` of a packed byte reads back as the element that was packed there,
      and every padding bit reads as false. */
  lemma PackByteBit(bs: seq<bool>, k: nat, m: nat, j: nat)
    requires k + m <= |bs| && m <= 8 && j < 8
    ensures BitAt(PackByte(bs, k, m), j) == (j < m && bs[k + j])
  {
    PackByteWeighted(bs, k, m);
    WeightedBit(bs, k, m, j);
  }

  // ---------------------------------------------------------------------------
  // Unpacking

  /** The elements held in the first `k` whole bytes of `s` and the first `j`
      bits of the byte after them, MSB first. */
  function Bits(s: seq<byte>, k: nat, j: nat): (r: seq<bool>)
    requires j <= 8 && 8 * k + j <= 8 * |s|
    ensures |r| == 8 * k + j
    decreases k, j
  {
    if j == 0 then
      if k == 0 then [] else Bits(s, k - 1, 8)
    else
      Bits(s, k, j - 1) + [BitAt(s[k], j - 1)]
  }

  /** Element `8q + r` is bit `r` of byte `q`. */
  lemma {:induction false} BitsAt(s: seq<byte>, k: nat, j: nat, q: nat, r: nat)
    requires j <= 8 && 8 * k + j <= 8 * |s|
    requires r < 8 && 8 * q + r < 8 * k + j
    ensures q < |s|
    ensures Bits(s, k, j)[8 * q + r] == BitAt(s[q], r)
    decreases k, j
  {
    if j == 0 {
      assert 8 * (k - 1) + 8 == 8 * k;
      BitsAt(s, k - 1, 8, q, r);
      assert Bits(s, k, j) == Bits(s, k - 1, 8);
    } else if 8 * q + r < 8 * k + j - 1 {
      BitsAt(s, k, j - 1, q, r);
      var prefix := Bits(s, k, j - 1);
      assert Bits(s, k, j) == prefix + [BitAt(s[k], j - 1)];
      assert Bits(s, k, j)[8 * q + r] == prefix[8 * q + r];
    } else {
      DivModUnique(8 * q + r, 8, k, j - 1);
      assert q == k && r == j - 1;
      assert Bits(s, k, j)[8 * q + r] == BitAt(s[k], j - 1);
    }
  }

  /** `8k + j` elements, `j < 8`, are `k` whole bytes and `j` more bits, and occupy
      one more byte when `j` is not zero. */
  lemma BytesUsed(k: nat, j: nat)
    requires j < 8
    ensures (8 * k + j) / 8 == k && (8 * k + j) % 8 == j
    ensures (8 * k + j + 7) / 8 == k + (if j > 0 then 1 else 0)
  {
    DivModUnique(8 * k + j, 8, k, j);
    if j > 0 {
      DivModUnique(8 * k + j + 7, 8, k + 1, j - 1);
    } else {
      DivModUnique(8 * k + 7, 8, k, 7);
    }
  }

  /** `count` elements unpacked from the front of `s`, and the bytes after the
      last byte they use. */
  function Unpack(s: seq<byte>, count: nat): (r: Result<(seq<bool>, seq<byte>)>)
    ensures r.Ok? <==> (count + 7) / 8 <= |s|
    ensures r.Ok? ==> |r.value.0| == count && |r.value.1| == |s| - (count + 7) / 8
  {
    if count > 8 * |s| then Err(Truncated)
    else Ok((Bits(s, count / 8, count % 8), s[(count + 7) / 8..]))
  }

  /** `n` true values. */
  function AllTrue(n: nat): (r: seq<bool>)
    ensures |r| == n && forall i | 0 <= i < n :: r[i]
  {
    if n == 0 then [] else AllTrue(n - 1) + [true]
  }

  /** `read_boolean`: with `checkAll`, a leading non-zero byte stands for a vector
      of `count` true values. */
  function Read(s: seq<byte>, count: nat, checkAll: bool): (r: Result<(seq<bool>, seq<byte>)>)
    ensures r.Ok? ==> |r.value.0| == count && |r.value.1| <= |s|
    ensures r.Ok? ==> |r.value.1| < |s| || (count == 0 && !checkAll && r.value.1 == s)
  {
    if checkAll then
      if |s| == 0 then Err(Truncated)
      else if s[0] != 0 then Ok((AllTrue(count), s[1..]))
      else Unpack(s[1..], count)
    else Unpack(s, count)
  }

  /** The all-defined byte: `count` true values, whatever `count` is. */
  lemma ReadAllDefined(count: nat, rest: seq<byte>)
    ensures Read([0x01] + rest, count, true) == Ok((AllTrue(count), rest))
  {
    assert ([0x01] + rest)[1..] == rest;
  }

  // ---------------------------------------------------------------------------
  // Round trip

  /** Element `8q + r` of a vector is bit `r` of byte `q` of its packing. */
  lemma PackedElement(bs: seq<bool>, q: nat, r: nat)
    requires r < 8 && 8 * q + r < |bs|
    ensures q < |Pack(bs)| && BitAt(Pack(bs)[q], r) == bs[8 * q + r]
  {
    PackAt(bs, 0, q);
    var m := if |bs| - 8 * q <= 8 then |bs| - 8 * q else 8;
    PackByteBit(bs, 8 * q, m, r);
  }

  /** Element `8q + r` survives packing and unpacking. */
  lemma UnpackedElement(bs: seq<bool>, rest: seq<byte>, q: nat, r: nat)
    requires |Pack(bs)| == (|bs| + 7) / 8
    requires r < 8 && 8 * q + r < |bs|
    ensures |bs| <= 8 * |Pack(bs) + rest|
    ensures Bits(Pack(bs) + rest, |bs| / 8, |bs| % 8)[8 * q + r] == bs[8 * q + r]
  {
    var s := Pack(bs) + rest;
    BytesUsed(|bs| / 8, |bs| % 8);
    PackedElement(bs, q, r);
    BitsAt(s, |bs| / 8, |bs| % 8, q, r);
    assert s[q] == Pack(bs)[q];
  }

  /** Round trip: the packed vector unpacks to the original elements, and the
      bytes after it are left unread. */
  lemma UnpackPack(bs: seq<bool>, rest: seq<byte>)
    ensures Unpack(Pack(bs) + rest, |bs|) == Ok((bs, rest))
  {
    PackLength(bs, 0);
    var s := Pack(bs) + rest;
    BytesUsed(|bs| / 8, |bs| % 8);
    var u := Bits(s, |bs| / 8, |bs| % 8);
    forall i | 0 <= i < |bs|
      ensures u[i] == bs[i]
    {
      var q, r := i / 8, i % 8;
      assert i == 8 * q + r;
      UnpackedElement(bs, rest, q, r);
    }
    assert u == bs;
    assert s[(|bs| + 7) / 8..] == rest;
  }

  /** Round trip of `write_boolean` and `read_boolean` with the same marker choice. */
  lemma ReadEncoded(bs: seq<bool>, allDefined: bool, rest: seq<byte>)
    ensures Read(Encoded(bs, allDefined) + rest, |bs|, allDefined) == Ok((bs, rest))
  {
    var p := Pack(bs);
    UnpackPack(bs, rest);
    if allDefined {
      var s := Encoded(bs, allDefined) + rest;
      assert s == [0] + (p + rest);
      assert s[1..] == p + rest;
    } else {
      assert Encoded(bs, allDefined) == p;
    }
  }
}
