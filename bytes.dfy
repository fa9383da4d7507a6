/** Bytes, fixed-width integers and the error results shared by every part of the
    7z header codec. */
module Bytes {

  /** One octet of an archive. */
  type byte = b: int | 0 <= b < 0x100

  /** A CRC32, a Windows attribute word or any other 4-byte little-endian field. */
  type uint32 = x: int | 0 <= x < 0x1_0000_0000

  /** The value range of the format's variable-length integer and of 8-byte fields. */
  type uint64 = x: int | 0 <= x < 0x1_0000_0000_0000_0000

  /** Why a parse stopped. Every error aborts the whole parse call. */
  datatype Error =
    | Truncated                       // the buffer ended before the field did
    | UnexpectedProperty(found: byte) // a property id the grammar does not allow here
    | MalformedFolder                 // the bind-pair graph has no single terminal output
    | MalformedSubStreams             // substream sizes exceed their folder's unpack size
    | MalformedFilesInfo              // a files-info property block is not consumed exactly by its declared length
    | MalformedName                   // a UTF-16 code unit that is a lone surrogate
    | Unsupported                     // alternative coder methods, external data streams
    | DecompressionFailed             // the encoded header could not be unpacked

  /** Failure-compatible result of a parse or of a read from a buffer. */
  datatype Result<+T> = Ok(value: T) | Err(error: Error) {
    predicate IsFailure() {
      Err?
    }

    function PropagateFailure<U>(): Result<U>
      requires Err?
    {
      Err(error)
    }

    function Extract(): T
      requires Ok?
    {
      value
    }
  }

  datatype Option<+T> = None | Some(value: T)

  function Pow256(n: nat): (r: nat)
    ensures r >= 1
  {
    if n == 0 then 1 else 256 * Pow256(n - 1)
  }

  /** The number whose big-endian byte string is `s`. */
  function BeValue(s: seq<byte>): nat
  {
    if s == [] then 0 else BeValue(s[..|s| - 1]) * 256 + s[|s| - 1]
  }

  /** The low `n` bytes of `x`, most significant first. */
  function BeBytes(x: nat, n: nat): (r: seq<byte>)
    ensures |r| == n
  {
    if n == 0 then [] else BeBytes(x / 256, n - 1) + [x % 256]
  }

  /** The number whose little-endian byte string is `s`. */
  function LeValue(s: seq<byte>): nat
  {
    if s == [] then 0 else s[0] + 256 * LeValue(s[1..])
  }

  /** The low `n` bytes of `x`, least significant first. */
  function LeBytes(x: nat, n: nat): (r: seq<byte>)
    ensures |r| == n
  {
    if n == 0 then [] else [x % 256] + LeBytes(x / 256, n - 1)
  }

  lemma {:induction false} BeValueBound(s: seq<byte>)
    ensures BeValue(s) < Pow256(|s|)
  {
    if s != [] {
      BeValueBound(s[..|s| - 1]);
    }
  }

  lemma {:induction false} BeValueOfBytes(x: nat, n: nat)
    requires x < Pow256(n)
    ensures BeValue(BeBytes(x, n)) == x
  {
    if n > 0 {
      BeValueOfBytes(x / 256, n - 1);
      var s := BeBytes(x, n);
      assert s[..n - 1] == BeBytes(x / 256, n - 1);
    }
  }

  lemma {:induction false} BeBytesOfValue(s: seq<byte>)
    ensures BeBytes(BeValue(s), |s|) == s
  {
    if s != [] {
      var init := s[..|s| - 1];
      BeBytesOfValue(init);
      assert BeValue(s) / 256 == BeValue(init);
      assert init + [s[|s| - 1]] == s;
    }
  }

  /** The value of a digit string is its leading digit times the weight of its
      position plus the value of the rest. */
  lemma {:induction false} BeValueCons(a: byte, rest: seq<byte>)
    ensures BeValue([a] + rest) == a * Pow256(|rest|) + BeValue(rest)
    decreases |rest|
  {
    if rest != [] {
      var init := rest[..|rest| - 1];
      assert ([a] + rest)[..|rest|] == [a] + init;
      BeValueCons(a, init);
    }
  }

  lemma {:induction false} LeValueBound(s: seq<byte>)
    ensures LeValue(s) < Pow256(|s|)
  {
    if s != [] {
      LeValueBound(s[1..]);
    }
  }

  lemma {:induction false} LeValueOfBytes(x: nat, n: nat)
    requires x < Pow256(n)
    ensures LeValue(LeBytes(x, n)) == x
  {
    if n > 0 {
      LeValueOfBytes(x / 256, n - 1);
      var s := LeBytes(x, n);
      assert s[1..] == LeBytes(x / 256, n - 1);
    }
  }

  lemma {:induction false} LeBytesOfValue(s: seq<byte>)
    ensures LeBytes(LeValue(s), |s|) == s
  {
    if s != [] {
      LeBytesOfValue(s[1..]);
      assert LeValue(s) % 256 == s[0];
      assert LeValue(s) / 256 == LeValue(s[1..]);
    }
  }

  lemma DivModUnique(x: nat, p: nat, q: nat, r: nat)
    requires p >= 1 && r < p && x == q * p + r
    ensures x / p == q && x % p == r
  {
    var q', r' := x / p, x % p;
    assert q' * p + r' == q * p + r;
    if q' < q {
      MulLe(q' + 1, q, p);
    } else if q < q' {
      MulLe(q + 1, q', p);
    }
  }

  lemma MulLe(a: nat, b: nat, p: nat)
    requires a <= b
    ensures a * p <= b * p
  {
  }

  /** Regrouping a concatenation. */
  lemma AppendAssoc<T>(a: seq<T>, b: seq<T>, c: seq<T>)
    ensures (a + b) + c == a + (b + c)
  {
  }
}
