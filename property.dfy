/** The one-byte property ids that tag the sections of a 7z header, as laid
    out in 7-Zip's `7zFormat.txt`. */
module Property {
  import opened Bytes

  const END: byte := 0x00
  const HEADER: byte := 0x01
  const ARCHIVE_PROPERTIES: byte := 0x02
  const ADDITIONAL_STREAMS_INFO: byte := 0x03
  const MAIN_STREAMS_INFO: byte := 0x04
  const FILES_INFO: byte := 0x05
  const PACK_INFO: byte := 0x06
  const UNPACK_INFO: byte := 0x07
  const SUBSTREAMS_INFO: byte := 0x08
  const SIZE: byte := 0x09
  const CRC: byte := 0x0A
  const FOLDER: byte := 0x0B
  const CODERS_UNPACK_SIZE: byte := 0x0C
  const NUM_UNPACK_STREAM: byte := 0x0D
  const EMPTY_STREAM: byte := 0x0E
  const EMPTY_FILE: byte := 0x0F
  const ANTI: byte := 0x10
  const NAME: byte := 0x11
  const CREATION_TIME: byte := 0x12
  const LAST_ACCESS_TIME: byte := 0x13
  const LAST_WRITE_TIME: byte := 0x14
  const ATTRIBUTES: byte := 0x15
  const ENCODED_HEADER: byte := 0x17
  const DUMMY: byte := 0x19

  /** Reads the next tag and fails unless it is `expected`. */
  function Expect(s: seq<byte>, expected: byte): (r: Result<seq<byte>>)
    ensures r.Ok? <==> |s| > 0 && s[0] == expected
    ensures r.Ok? ==> [expected] + r.value == s
    ensures |s| > 0 && s[0] != expected ==> r == Err(UnexpectedProperty(s[0]))
  {
    if |s| == 0 then Err(Truncated)
    else if s[0] != expected then Err(UnexpectedProperty(s[0]))
    else Ok(s[1..])
  }

  /** The tag written before `rest` is accepted, leaving `rest`. */
  lemma ExpectCons(expected: byte, rest: seq<byte>)
    ensures Expect([expected] + rest, expected) == Ok(rest)
  {
    assert ([expected] + rest)[1..] == rest;
  }

  /** The id that closes a section: only END does, any other id is refused
      with that id, and the section read so far is kept with what follows. */
  function Close<T>(section: T, pid: byte, s: seq<byte>): (r: Result<(T, seq<byte>)>)
    ensures r.Ok? <==> pid == END
    ensures r.Ok? ==> r.value == (section, s)
    ensures r.Err? ==> r.error == UnexpectedProperty(pid)
  {
    if pid == END then Ok((section, s)) else Err(UnexpectedProperty(pid))
  }
}
