/** The format's variable-length unsigned 64-bit integer (UINT64).

    The first byte starts with L one-bits, where L is the number of bytes that
    follow it. For L < 8 a zero bit terminates that run and the remaining 7 - L
    bits hold `value >> 8*L`; for L == 8 the first byte is 0xFF and carries no
    value bits. The L following bytes hold the low 8*L bits of the value, most
    significant byte first. The encoder always picks the smallest L. */
module VarInt {
  import opened Bytes

  /** Every value below `Limit(n)` fits in a first byte plus `n` extra bytes. */
  function Limit(n: nat): nat
    requires n <= 8
  {
    match n
    case 0 => 0x80
    case 1 => 0x4000
    case 2 => 0x20_0000
    case 3 => 0x1000_0000
    case 4 => 0x8_0000_0000
    case 5 => 0x400_0000_0000
    case 6 => 0x2_0000_0000_0000
    case 7 => 0x100_0000_0000_0000
    case 8 => 0x1_0000_0000_0000_0000
  }

  /** The limit is the high part's range above `n` whole bytes. */
  lemma LimitSplit(n: nat)
    requires n <= 8
    ensures Limit(n) == HighLimit(n) * Pow256(n)
  {
    match n
    case 0 =>
    case 1 =>
    case 2 =>
    case 3 =>
    case 4 =>
    case 5 =>
    case 6 =>
    case 7 =>
    case 8 =>
  }

  /** The `n` leading one-bits of a first byte announcing `n` extra bytes. */
  function Prefix(n: nat): byte
    requires n <= 8
  {
    match n
    case 0 => 0x00
    case 1 => 0x80
    case 2 => 0xC0
    case 3 => 0xE0
    case 4 => 0xF0
    case 5 => 0xF8
    case 6 => 0xFC
    case 7 => 0xFE
    case 8 => 0xFF
  }

  /** One more than the largest high part a first byte with `n` leading ones can carry:
      the 7 - n bits after the terminating zero bit, and none when n == 8. */
  function HighLimit(n: nat): nat
    requires n <= 8
  {
    match n
    case 0 => 0x80
    case 1 => 0x40
    case 2 => 0x20
    case 3 => 0x10
    case 4 => 0x08
    case 5 => 0x04
    case 6 => 0x02
    case 7 => 0x01
    case 8 => 0x01
  }

  /** The number of leading one-bits of a first byte, which is the number of bytes
      that follow it. */
  function LeadingOnes(b: byte): (n: nat)
    ensures n <= 8
  {
    if b < 0x80 then 0
    else if b < 0xC0 then 1
    else if b < 0xE0 then 2
    else if b < 0xF0 then 3
    else if b < 0xF8 then 4
    else if b < 0xFC then 5
    else if b < 0xFE then 6
    else if b < 0xFF then 7
    else 8
  }

  /** A first byte is its leading one-bits followed by a high part that fits in
      the bits left after them. */
  lemma LeadingOnesBounds(b: byte)
    ensures Prefix(LeadingOnes(b)) <= b < Prefix(LeadingOnes(b)) + HighLimit(LeadingOnes(b))
  {
  }

  /** The smallest number of extra bytes that can hold `v`: the first limit
      above it. */
  function ExtraLength(v: uint64): (n: nat)
    ensures n <= 8
  {
    if v < 0x80 then 0
    else if v < 0x4000 then 1
    else if v < 0x20_0000 then 2
    else if v < 0x1000_0000 then 3
    else if v < 0x8_0000_0000 then 4
    else if v < 0x400_0000_0000 then 5
    else if v < 0x2_0000_0000_0000 then 6
    else if v < 0x100_0000_0000_0000 then 7
    else 8
  }

  /** `v` fits under `ExtraLength(v)` extra bytes and not under one byte fewer. */
  lemma ExtraLengthIsLeast(v: uint64)
    ensures v < Limit(ExtraLength(v))
    ensures ExtraLength(v) == 0 || Limit(ExtraLength(v) - 1) <= v
  {
  }

  /** More extra bytes hold larger values. */
  lemma {:induction false} LimitMonotone(m: nat, n: nat)
    requires m <= n <= 8
    ensures Limit(m) <= Limit(n)
    ensures m < n ==> Limit(m) < Limit(n)
    decreases n - m
  {
    if m < n {
      LimitMonotone(m + 1, n);
      match m
      case 0 =>
      case 1 =>
      case 2 =>
      case 3 =>
      case 4 =>
      case 5 =>
      case 6 =>
      case 7 =>
    }
  }

  /** Limits are ordered as their byte counts. */
  lemma LimitOrder(a: nat, b: nat)
    requires a <= 8 && b <= 8
    ensures Limit(a) <= Limit(b) <==> a <= b
  {
    if a <= b {
      LimitMonotone(a, b);
    } else {
      LimitMonotone(b, a);
    }
  }

  /** `encode_uint64`: the shortest encoding of `v`. Its `n + 1` big-endian
      digits in base 256, with the `n` leading one-bits merged into the first. */
  function Encode(v: uint64): (r: seq<byte>)
    ensures 1 <= |r| <= 9
    ensures v < 0x80 ==> r == [v]
  {
    var n := ExtraLength(v);
    var digits := BeBytes(v, n + 1);
    ExtraLengthIsLeast(v);
    LimitSplit(n);
    BeBytesHead(v, n, HighLimit(n));
    FirstByte(n, digits[0]);
    [Prefix(n) + digits[0]] + digits[1..]
  }

  /** The first byte of an encoding announces how many bytes follow it, so the
      encoding is self-delimiting. */
  lemma EncodeAnnouncesLength(v: uint64)
    ensures LeadingOnes(Encode(v)[0]) == |Encode(v)| - 1
  {
    var n := ExtraLength(v);
    ExtraLengthIsLeast(v);
    LimitSplit(n);
    BeBytesHead(v, n, HighLimit(n));
    FirstByte(n, BeBytes(v, n + 1)[0]);
  }

  /** A first byte built from `n` leading ones and a high part that fits reads back
      as announcing `n` extra bytes. */
  lemma FirstByte(n: nat, high: nat)
    requires n <= 8 && high < HighLimit(n)
    ensures Prefix(n) + high < 0x100
    ensures LeadingOnes(Prefix(n) + high) == n
  {
    match n
    case 0 =>
    case 1 =>
    case 2 =>
    case 3 =>
    case 4 =>
    case 5 =>
    case 6 =>
    case 7 =>
    case 8 =>
  }

  /** The digits of an integer: the first byte without its leading one-bits,
      then the `n` bytes it announces. */
  function Digits(s: seq<byte>, n: nat): (d: seq<byte>)
    requires 1 + n <= |s| && n <= 8 && s[0] >= Prefix(n)
    ensures |d| == n + 1
  {
    [s[0] - Prefix(n)] + s[1..1 + n]
  }

  /** `read_uint64` as a parse: one integer and the bytes after it. Fails when
      the bytes end inside the integer. */
  function Decode(s: seq<byte>): (r: Result<(uint64, seq<byte>)>)
    ensures r.Ok? ==> |r.value.1| < |s|
  {
    if |s| == 0 then Err(Truncated)
    else
      var n := LeadingOnes(s[0]);
      if 1 + n > |s| then Err(Truncated)
      else
        DigitsBound(s, n);
        LimitMonotone(n, 8);
        Ok((BeValue(Digits(s, n)), s[1 + n..]))
  }

  lemma DigitsBound(s: seq<byte>, n: nat)
    requires 1 + n <= |s| && n <= 8 && n == LeadingOnes(s[0])
    ensures s[0] >= Prefix(n)
    ensures BeValue(Digits(s, n)) < Limit(n)
  {
    LeadingOnesBounds(s[0]);
    BeValueHeadBound(Digits(s, n), HighLimit(n));
    LimitSplit(n);
  }

  /** A value read with `n` extra bytes is below `Limit(n)`. */
  lemma DecodeBound(s: seq<byte>)
    requires Decode(s).Ok?
    ensures Decode(s).value.0 < Limit(|s| - |Decode(s).value.1| - 1)
  {
    DigitsBound(s, LeadingOnes(s[0]));
  }

  /** The leading digit of `x` written in `n + 1` digits is below `h` when `x` is
      below `h` times the weight of that digit. */
  lemma {:induction false} BeBytesHead(x: nat, n: nat, h: nat)
    requires x < h * Pow256(n)
    ensures BeBytes(x, n + 1)[0] < h
  {
    if n > 0 {
      assert x / 256 < h * Pow256(n - 1) by {
        DivBound(x, 256, h * Pow256(n - 1));
      }
      BeBytesHead(x / 256, n - 1, h);
    }
  }

  /** A digit string whose leading digit is below `h` has a value below `h` times
      the weight of that digit. */
  lemma BeValueHeadBound(d: seq<byte>, h: nat)
    requires |d| >= 1 && d[0] < h
    ensures BeValue(d) < h * Pow256(|d| - 1)
  {
    BeValueCons(d[0], d[1..]);
    assert [d[0]] + d[1..] == d;
    BeValueBound(d[1..]);
    CombineBound(d[0], BeValue(d[1..]), Pow256(|d| - 1), h);
  }

  lemma DivBound(v: nat, p: nat, h: nat)
    requires p >= 1 && v < h * p
    ensures v / p < h
  {
  }

  lemma CombineBound(high: nat, low: nat, p: nat, h: nat)
    requires high < h && low < p
    ensures high * p + low < h * p
  {
    assert high * p + p <= h * p by {
      assert (high + 1) * p <= h * p;
    }
  }

  /** Round trip: the integer written before `rest` is read back, and the read
      stops right after it, whatever follows. */
  lemma DecodeEncode(v: uint64, rest: seq<byte>)
    ensures Decode(Encode(v) + rest) == Ok((v, rest))
  {
    EncodeParts(v);
    DecodeField(Encode(v), rest, v);
  }

  /** A byte below 0x80 is an integer by itself: it is its own value. */
  lemma DecodeSmall(b: byte, rest: seq<byte>)
    requires b < 0x80
    ensures Decode([b] + rest) == Ok((b, rest))
  {
    DecodeEncode(b, rest);
  }

  /** The encoding is a first byte announcing the rest, and digits worth `v`. */
  lemma EncodeParts(v: uint64)
    ensures var e := Encode(v); var n := |e| - 1;
      e[0] >= Prefix(n) && LeadingOnes(e[0]) == n && BeValue([e[0] - Prefix(n)] + e[1..]) == v
  {
    var n := ExtraLength(v);
    var digits := BeBytes(v, n + 1);
    EncodeAnnouncesLength(v);
    assert [digits[0]] + digits[1..] == digits;
    assert v < Pow256(n + 1) by {
      ExtraLengthIsLeast(v);
      LimitSplit(n);
      MulLe(HighLimit(n), 256, Pow256(n));
    }
    BeValueOfBytes(v, n + 1);
  }

  /** A field holding a first byte that announces the rest of the field, and
      digits worth `v`, reads as `v`. */
  lemma DecodeField(e: seq<byte>, rest: seq<byte>, v: nat)
    requires 1 <= |e| <= 9 && e[0] >= Prefix(|e| - 1) && LeadingOnes(e[0]) == |e| - 1
    requires BeValue([e[0] - Prefix(|e| - 1)] + e[1..]) == v
    ensures Decode(e + rest) == Ok((v, rest))
  {
    var s := e + rest;
    var n := |e| - 1;
    assert s[0] == e[0];
    assert s[1..1 + n] == e[1..];
    assert s[1 + n..] == rest;
    assert Digits(s, n) == [e[0] - Prefix(n)] + e[1..];
  }

  /** The encoding is minimal: every byte string that decodes to `v` is at least
      as long as `Encode(v)`. */
  lemma {:induction false} EncodeIsShortest(s: seq<byte>)
    requires Decode(s).Ok?
    ensures |Encode(Decode(s).value.0)| <= |s| - |Decode(s).value.1|
  {
    var v := Decode(s).value.0;
    var n := ExtraLength(v);
    DecodeBound(s);
    ExtraLengthIsLeast(v);
    var len := |s| - |Decode(s).value.1| - 1;
    if n > 0 {
      LimitOrder(len, n - 1);
    }
  }

  /** Conversely, a byte string of the shortest length is exactly the encoding of
      the value it decodes to: the minimal form is unique. */
  lemma {:induction false} EncodeDecode(s: seq<byte>)
    requires Decode(s).Ok?
    requires |s| - |Decode(s).value.1| == |Encode(Decode(s).value.0)|
    ensures s == Encode(Decode(s).value.0) + Decode(s).value.1
  {
    var v := Decode(s).value.0;
    var n := LeadingOnes(s[0]);
    assert ExtraLength(v) == n;
    var digits := Digits(s, n);
    BeBytesOfValue(digits);
    assert BeBytes(v, n + 1) == digits;
    assert Encode(v) == [Prefix(n) + digits[0]] + digits[1..];
    assert digits[1..] == s[1..1 + n];
    assert s == [s[0]] + s[1..1 + n] + s[1 + n..];
  }
}
