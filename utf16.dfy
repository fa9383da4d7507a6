/** File names as the files-info section stores them: UTF-16 code units, each
    two bytes least significant first, the name closed by a zero unit. */
module Utf16 {
  import opened Bytes
  import opened BytesIO

  /** A UTF-16 code unit. */
  type Unit = x: int | 0 <= x < 0x1_0000

  predicate IsHigh(u: Unit) { 0xD800 <= u < 0xDC00 }
  predicate IsLow(u: Unit) { 0xDC00 <= u < 0xE000 }

  /** A name the section can hold: the zero unit closes a name, so no NUL. */
  predicate Storable(name: string)
  {
    forall i | 0 <= i < |name| :: name[i] != 0 as char
  }

  // ---------------------------------------------------------------------------
  // Characters and code units

  /** The code units of one character: itself below 0x10000, a surrogate pair
      above. */
  function CharUnits(c: char): (r: seq<Unit>)
    ensures |r| == 1 ==> !IsHigh(r[0]) && !IsLow(r[0]) && r[0] == c as int
    ensures |r| == 2 ==> IsHigh(r[0]) && IsLow(r[1])
    ensures |r| == 1 || |r| == 2
    ensures c != 0 as char ==> forall i | 0 <= i < |r| :: r[i] != 0
  {
    var v := c as int;
    if v < 0x1_0000 then [v]
    else [0xD800 + (v - 0x1_0000) / 0x400, 0xDC00 + (v - 0x1_0000) % 0x400]
  }

  function Units(name: string): seq<Unit>
  {
    if name == [] then [] else CharUnits(name[0]) + Units(name[1..])
  }

  /** The character a surrogate pair stands for. */
  function Combine(hi: Unit, lo: Unit): (c: char)
    requires IsHigh(hi) && IsLow(lo)
    ensures c as int >= 0x1_0000
  {
    (0x1_0000 + (hi - 0xD800) * 0x400 + (lo - 0xDC00)) as char
  }

  /** Decodes code units; a surrogate without its partner is an error. */
  function Decode(us: seq<Unit>): (r: Result<string>)
    ensures r.Err? ==> r.error == MalformedName
    decreases |us|
  {
    if us == [] then Ok([])
    else if IsHigh(us[0]) then
      if |us| >= 2 && IsLow(us[1]) then
        var tail :- Decode(us[2..]);
        Ok([Combine(us[0], us[1])] + tail)
      else Err(MalformedName)
    else if IsLow(us[0]) then Err(MalformedName)
    else
      var tail :- Decode(us[1..]);
      Ok([us[0] as char] + tail)
  }

  /** A surrogate pair decodes to the character it was made from. */
  lemma CombineSplit(c: char)
    requires c as int >= 0x1_0000
    ensures Combine(CharUnits(c)[0], CharUnits(c)[1]) == c
  {
  }

  /** The units of a character above 0x10000 are those of the pair it decodes from. */
  lemma SplitCombine(hi: Unit, lo: Unit)
    requires IsHigh(hi) && IsLow(lo)
    ensures CharUnits(Combine(hi, lo)) == [hi, lo]
  {
    var v := (hi - 0xD800) * 0x400 + (lo - 0xDC00);
    DivModUnique(v, 0x400, hi - 0xD800, lo - 0xDC00);
  }

  lemma UnitsCons(name: string, rest: seq<Unit>)
    requires name != []
    ensures Units(name) + rest == CharUnits(name[0]) + (Units(name[1..]) + rest)
  {
  }

  /** Every name decodes from its code units. */
  lemma {:induction false} DecodeUnits(name: string)
    ensures Decode(Units(name)) == Ok(name)
    decreases |name|
  {
    if name != [] {
      var us := Units(name);
      var cu := CharUnits(name[0]);
      DecodeUnits(name[1..]);
      UnitsCons(name, []);
      assert us == cu + Units(name[1..]);
      if |cu| == 2 {
        CombineSplit(name[0]);
        assert us[2..] == Units(name[1..]);
      } else {
        assert us[1..] == Units(name[1..]);
      }
      assert [name[0]] + name[1..] == name;
    }
  }

  /** Decoding loses nothing: the units a decoded name encodes to are the units
      it was decoded from. */
  lemma {:induction false} UnitsDecode(us: seq<Unit>)
    requires Decode(us).Ok?
    ensures Units(Decode(us).value) == us
    decreases |us|
  {
    if us != [] {
      var name := Decode(us).value;
      if IsHigh(us[0]) {
        UnitsDecode(us[2..]);
        SplitCombine(us[0], us[1]);
        assert name[1..] == Decode(us[2..]).value;
        assert us == [us[0], us[1]] + us[2..];
      } else {
        UnitsDecode(us[1..]);
        assert name[1..] == Decode(us[1..]).value;
        assert us == [us[0]] + us[1..];
      }
    }
  }

  /** A decoded name has no NUL unless its units had a zero unit. */
  lemma {:induction false} DecodeStorable(us: seq<Unit>)
    requires Decode(us).Ok? && forall i | 0 <= i < |us| :: us[i] != 0
    ensures Storable(Decode(us).value)
    decreases |us|
  {
    if us != [] {
      var name := Decode(us).value;
      if IsHigh(us[0]) {
        DecodeStorable(us[2..]);
        assert name[1..] == Decode(us[2..]).value;
      } else {
        DecodeStorable(us[1..]);
        assert name[1..] == Decode(us[1..]).value;
      }
    }
  }

  /** A storable name has no zero unit. */
  lemma {:induction false} UnitsNonZero(name: string)
    requires Storable(name)
    ensures forall i | 0 <= i < |Units(name)| :: Units(name)[i] != 0
    decreases |name|
  {
    if name != [] {
      UnitsNonZero(name[1..]);
      UnitsCons(name, []);
    }
  }

  lemma {:induction false} UnitsAppend(a: string, b: string)
    ensures Units(a + b) == Units(a) + Units(b)
    decreases |a|
  {
    if a != [] {
      assert (a + b)[0] == a[0];
      assert (a + b)[1..] == a[1..] + b;
      UnitsAppend(a[1..], b);
      calc {
        Units(a + b);
        CharUnits(a[0]) + Units(a[1..] + b);
        CharUnits(a[0]) + (Units(a[1..]) + Units(b));
        (CharUnits(a[0]) + Units(a[1..])) + Units(b);
      }
    } else {
      assert a + b == b;
    }
  }

  // ---------------------------------------------------------------------------
  // Bytes

  function UnitBytes(u: Unit): (r: seq<byte>)
  {
    [u % 256, u / 256]
  }

  function UnitsBytes(us: seq<Unit>): seq<byte>
  {
    if us == [] then [] else UnitBytes(us[0]) + UnitsBytes(us[1..])
  }

  lemma {:induction false} UnitsBytesAppend(x: seq<Unit>, y: seq<Unit>)
    ensures UnitsBytes(x + y) == UnitsBytes(x) + UnitsBytes(y)
    decreases |x|
  {
    if x != [] {
      assert (x + y)[0] == x[0];
      assert (x + y)[1..] == x[1..] + y;
      UnitsBytesAppend(x[1..], y);
      calc {
        UnitsBytes(x + y);
        UnitBytes(x[0]) + UnitsBytes(x[1..] + y);
        UnitBytes(x[0]) + (UnitsBytes(x[1..]) + UnitsBytes(y));
        (UnitBytes(x[0]) + UnitsBytes(x[1..])) + UnitsBytes(y);
      }
    } else {
      assert x + y == y;
    }
  }

  /** The bytes of a name split anywhere: the units of the first part, then the
      stored second part. */
  lemma NameBytesAppend(a: string, b: string)
    ensures NameBytes(a + b) == UnitsBytes(Units(a)) + NameBytes(b)
  {
    UnitsAppend(a, b);
    UnitsBytesAppend(Units(a), Units(b));
  }

  /** A name as stored: its code units, then the zero unit. */
  function NameBytes(name: string): seq<byte>
  {
    UnitsBytes(Units(name)) + [0, 0]
  }

  /** One code unit, `read(2)` decoded little-endian. */
  function ReadUnit(s: seq<byte>): (r: Result<(Unit, seq<byte>)>)
    ensures r.Ok? <==> |s| >= 2
    ensures r.Ok? ==> r.value.1 == s[2..] && (r.value.0 == 0 <==> s[0] == 0 && s[1] == 0)
  {
    if |s| < 2 then Err(Truncated) else Ok((s[0] as int + 256 * s[1] as int, s[2..]))
  }

  /** Code units up to the zero unit, which is consumed, appended to `acc`. */
  function UnitsUntilNul(s: seq<byte>, acc: seq<Unit>): (r: Result<(seq<Unit>, seq<byte>)>)
    ensures r.Ok? ==> |r.value.1| <= |s| - 2
    ensures r.Ok? ==> acc <= r.value.0 && forall i | |acc| <= i < |r.value.0| :: r.value.0[i] != 0
    decreases |s|
  {
    var u :- ReadUnit(s);
    if u.0 == 0 then Ok((acc, u.1))
    else UnitsUntilNul(u.1, acc + [u.0])
  }

  /** `read_utf16`: one name up to its zero unit. */
  function Name(s: seq<byte>): (r: Result<(string, seq<byte>)>)
    ensures r.Ok? ==> |r.value.1| <= |s| - 2 && Storable(r.value.0)
  {
    var us :- UnitsUntilNul(s, []);
    var name :- Decode(us.0);
    DecodeStorable(us.0);
    Ok((name, us.1))
  }

  /** `read_utf16` on a reader: two bytes at a time until a zero unit. */
  method ReadName(f: ByteReader) returns (res: Result<string>)
    modifies f
    ensures f.Follows(res, Name(old(f.rest)))
  {
    var units: seq<Unit> := [];
    while true
      invariant UnitsUntilNul(f.rest, units) == UnitsUntilNul(old(f.rest), [])
      decreases |f.rest|
    {
      var ch :- f.Read(2);
      var u := ch[0] as int + 256 * ch[1] as int;
      if u == 0 {
        break;
      }
      units := units + [u];
    }
    var name :- Decode(units);
    return Ok(name);
  }

  // ---------------------------------------------------------------------------
  // Round trip

  lemma UnitRoundTrip(u: Unit, rest: seq<byte>)
    ensures ReadUnit(UnitBytes(u) + rest) == Ok((u, rest))
  {
    assert (UnitBytes(u) + rest)[2..] == rest;
  }

  lemma {:induction false} UnitsRoundTrip(us: seq<Unit>, rest: seq<byte>, acc: seq<Unit>)
    requires forall i | 0 <= i < |us| :: us[i] != 0
    ensures UnitsUntilNul(UnitsBytes(us) + ([0, 0] + rest), acc) == Ok((acc + us, rest))
    decreases |us|
  {
    if us == [] {
      assert UnitsBytes(us) + ([0, 0] + rest) == [0, 0] + rest;
      assert ([0, 0] + rest)[2..] == rest;
      assert acc + us == acc;
    } else {
      UnitsRoundTrip(us[1..], rest, acc + [us[0]]);
      UnitsHead(us, rest, acc);
    }
  }

  lemma UnitsHead(us: seq<Unit>, rest: seq<byte>, acc: seq<Unit>)
    requires us != [] && us[0] != 0
    requires UnitsUntilNul(UnitsBytes(us[1..]) + ([0, 0] + rest), acc + [us[0]]) == Ok((acc + [us[0]] + us[1..], rest))
    ensures UnitsUntilNul(UnitsBytes(us) + ([0, 0] + rest), acc) == Ok((acc + us, rest))
  {
    var tail := UnitsBytes(us[1..]) + ([0, 0] + rest);
    AppendAssoc(UnitBytes(us[0]), UnitsBytes(us[1..]), [0, 0] + rest);
    UnitRoundTrip(us[0], tail);
    assert UnitsUntilNul(UnitsBytes(us) + ([0, 0] + rest), acc) == UnitsUntilNul(tail, acc + [us[0]]);
    Bytes.AppendAssoc(acc, [us[0]], us[1..]);
    assert [us[0]] + us[1..] == us;
  }

  /** A storable name reads back from its bytes, and the bytes after the
      zero unit are left unread. */
  lemma NameRoundTrip(name: string, rest: seq<byte>)
    requires Storable(name)
    ensures Name(NameBytes(name) + rest) == Ok((name, rest))
  {
    UnitsNonZero(name);
    AppendAssoc(UnitsBytes(Units(name)), [0, 0], rest);
    UnitsRoundTrip(Units(name), rest, []);
    assert [] + Units(name) == Units(name);
    DecodeUnits(name);
  }
}
