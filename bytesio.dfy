/** In-memory byte buffers with a cursor, the two roles `io.BytesIO` plays in the
    header codec: a source the readers consume from the front, and a sink the
    writers append to.

    A parse is a function from the bytes still to be read to the value read and
    the bytes left after it. */
module BytesIO {
  import opened Bytes

  /** `read(n)` on the bytes `s`: the first `n` of them and what follows. */
  function Take(s: seq<byte>, n: nat): (r: Result<(seq<byte>, seq<byte>)>)
    ensures r.Ok? <==> n <= |s|
    ensures r.Ok? ==> r.value.0 + r.value.1 == s && |r.value.0| == n
  {
    if n <= |s| then Ok((s[..n], s[n..])) else Err(Truncated)
  }

  /** `read(1)`: the first byte and what follows. */
  function TakeByte(s: seq<byte>): (r: Result<(byte, seq<byte>)>)
    ensures r.Ok? <==> |s| > 0
    ensures r.Ok? ==> [r.value.0] + r.value.1 == s
  {
    if |s| > 0 then Ok((s[0], s[1..])) else Err(Truncated)
  }

  /** Reading `|w|` bytes from `w + rest` gives `w` back and leaves `rest`. */
  lemma TakeAppend(w: seq<byte>, rest: seq<byte>)
    ensures Take(w + rest, |w|) == Ok((w, rest))
  {
    assert (w + rest)[..|w|] == w;
    assert (w + rest)[|w|..] == rest;
  }

  lemma TakeByteCons(b: byte, rest: seq<byte>)
    ensures TakeByte([b] + rest) == Ok((b, rest))
  {
    assert ([b] + rest)[1..] == rest;
  }

  /** A source whose unread bytes are consumed from the front. */
  class ByteReader {
    /** The bytes after the cursor. */
    var rest: seq<byte>

    constructor (data: seq<byte>)
      ensures rest == data
    {
      rest := data;
    }

    /** The method's result and the cursor agree with the parse `spec` of the
        unread bytes: on success the value it parsed and the bytes after it, on
        failure the same error. */
    ghost predicate Follows<T>(res: Result<T>, spec: Result<(T, seq<byte>)>)
      reads this
    {
      match spec
      case Ok(v) => res == Ok(v.0) && rest == v.1
      case Err(e) => res == Err(e)
    }

    /** `read(n)`; a short read is an error. */
    method Read(n: nat) returns (res: Result<seq<byte>>)
      modifies this
      ensures Follows(res, Take(old(rest), n))
    {
      if n <= |rest| {
        res := Ok(rest[..n]);
        rest := rest[n..];
      } else {
        res := Err(Truncated);
      }
    }

    /** `read(1)`, the next byte. */
    method ReadByte() returns (res: Result<byte>)
      modifies this
      ensures Follows(res, TakeByte(old(rest)))
    {
      if |rest| > 0 {
        res := Ok(rest[0]);
        rest := rest[1..];
      } else {
        res := Err(Truncated);
      }
    }
  }

  /** A sink that only grows at its end. */
  class ByteWriter {
    var buf: seq<byte>

    constructor ()
      ensures buf == []
    {
      buf := [];
    }

    /** `getvalue()`. */
    function GetValue(): seq<byte>
      reads this
    {
      buf
    }

    method Write(bytes: seq<byte>)
      modifies this
      ensures buf == old(buf) + bytes
    {
      buf := buf + bytes;
    }

    method WriteByte(b: byte)
      modifies this
      ensures buf == old(buf) + [b]
    {
      buf := buf + [b];
    }
  }
}
