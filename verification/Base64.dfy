/** The base64 coding of section 4 of RFC 4648, over symbols instead of letters. */
module Base64 {
  import opened Options

  type Byte = bv8
  type Sextet = x: bv8 | x < 64
  type Bytes = seq<Byte>
  datatype Symbol = Digit(value: Sextet) | Pad

  /** The four digits of three bytes. */
  function Split(x: Byte, y: Byte, z: Byte): (g: seq<Symbol>)
    ensures |g| == 4
  {
    [Digit(x >> 2), Digit(((x & 3) << 4) | (y >> 4)), Digit(((y & 15) << 2) | (z >> 6)), Digit(z & 63)]
  }

  function Join(a: Sextet, b: Sextet, c: Sextet, d: Sextet): (t: Bytes)
    ensures |t| == 3
  {
    [(a << 2) | (b >> 4), (b << 4) | (c >> 2), (c << 6) | d]
  }

  /** The last group, when one or two bytes are left, is padded. */
  function Encode(b: Bytes): seq<Symbol> {
    if |b| == 0 then []
    else if |b| == 1 then Split(b[0], 0, 0)[..2] + [Pad, Pad]
    else if |b| == 2 then Split(b[0], b[1], 0)[..3] + [Pad]
    else Split(b[0], b[1], b[2]) + Encode(b[3..])
  }

  /** The bytes a text stands for, if it is exactly the encoding of some bytes: the source decodes leniently
      and then demands that encoding the bytes again gives the same text. */
  function Decode(d: seq<Symbol>): Option<Bytes> {
    if |d| == 0 then Some([])
    else if |d| < 4 || d[0].Pad? || d[1].Pad? then None
    else if d[2].Pad? then
      if |d| == 4 && d[3].Pad? && d[1].value & 15 == 0 then Some(Join(d[0].value, d[1].value, 0, 0)[..1]) else None
    else if d[3].Pad? then
      if |d| == 4 && d[2].value & 3 == 0 then Some(Join(d[0].value, d[1].value, d[2].value, 0)[..2]) else None
    else
      match Decode(d[4..])
      case None => None
      case Some(rest) => Some(Join(d[0].value, d[1].value, d[2].value, d[3].value) + rest)
  }

  lemma JoinSplit(x: Byte, y: Byte, z: Byte)
    ensures var g := Split(x, y, z); Join(g[0].value, g[1].value, g[2].value, g[3].value) == [x, y, z]
  {}

  lemma SplitJoin(a: Sextet, b: Sextet, c: Sextet, d: Sextet)
    ensures var t := Join(a, b, c, d); Split(t[0], t[1], t[2]) == [Digit(a), Digit(b), Digit(c), Digit(d)]
  {}

  lemma DecodeOne(b: Bytes)
    requires |b| == 1
    ensures Decode(Encode(b)) == Some(b) && |Encode(b)| == 4
  {
    var g := Split(b[0], 0, 0);
    JoinSplit(b[0], 0, 0);
    assert g[1].value & 15 == 0 && g[2].value == 0 && g[3].value == 0;
    assert Encode(b) == [g[0], g[1], Pad, Pad];
    assert Join(g[0].value, g[1].value, 0, 0)[..1] == b;
  }

  lemma DecodeTwo(b: Bytes)
    requires |b| == 2
    ensures Decode(Encode(b)) == Some(b) && |Encode(b)| == 4
  {
    var g := Split(b[0], b[1], 0);
    JoinSplit(b[0], b[1], 0);
    assert g[2].value & 3 == 0 && g[3].value == 0;
    assert Encode(b) == [g[0], g[1], g[2], Pad];
    assert Join(g[0].value, g[1].value, g[2].value, 0)[..2] == b;
  }

  lemma DecodeGroup(x: Byte, y: Byte, z: Byte, e: seq<Symbol>)
    requires Decode(e).Some?
    ensures Decode(Split(x, y, z) + e) == Some([x, y, z] + Decode(e).value)
  {
    JoinSplit(x, y, z);
    assert (Split(x, y, z) + e)[4..] == e;
  }

  /** Four symbols for every three bytes begun. */
  lemma {:induction false} EncodedLength(b: Bytes)
    ensures |Encode(b)| == (|b| + 2) / 3 * 4
  {
    if |b| >= 3 { EncodedLength(b[3..]); }
  }

  lemma {:induction false} DecodeEncode(b: Bytes)
    ensures Decode(Encode(b)) == Some(b)
  {
    if |b| == 1 {
      DecodeOne(b);
    } else if |b| == 2 {
      DecodeTwo(b);
    } else if |b| >= 3 {
      var rest := b[3..];
      DecodeEncode(rest);
      DecodeGroup(b[0], b[1], b[2], Encode(rest));
      assert b == [b[0], b[1], b[2]] + rest;
      assert Encode(b) == Split(b[0], b[1], b[2]) + Encode(rest);
    }
  }

  lemma EncodePadded(d: seq<Symbol>)
    requires Decode(d).Some? && |d| == 4 && d[3].Pad?
    ensures Encode(Decode(d).value) == d
  {
    var b := Decode(d).value;
    if d[2].Pad? {
      SplitJoin(d[0].value, d[1].value, 0, 0);
      assert b == Join(d[0].value, d[1].value, 0, 0)[..1];
      assert Join(d[0].value, d[1].value, 0, 0)[1] == 0;
      assert Encode(b) == Split(b[0], 0, 0)[..2] + [Pad, Pad];
    } else {
      SplitJoin(d[0].value, d[1].value, d[2].value, 0);
      assert b == Join(d[0].value, d[1].value, d[2].value, 0)[..2];
      assert Join(d[0].value, d[1].value, d[2].value, 0)[2] == 0;
      assert Encode(b) == Split(b[0], b[1], 0)[..3] + [Pad];
    }
  }

  lemma EncodeGroup(a: Sextet, b: Sextet, c: Sextet, e: Sextet, rest: seq<Symbol>)
    requires Decode(rest).Some? && Encode(Decode(rest).value) == rest
    ensures var d := [Digit(a), Digit(b), Digit(c), Digit(e)] + rest;
      Decode(d).Some? && Encode(Decode(d).value) == d
  {
    var d, t, v := [Digit(a), Digit(b), Digit(c), Digit(e)] + rest, Join(a, b, c, e), Decode(rest).value;
    assert d[4..] == rest;
    assert Decode(d) == Some(t + v);
    SplitJoin(a, b, c, e);
    EncodeThree(t, v);
  }

  lemma EncodeThree(t: Bytes, v: Bytes)
    requires |t| == 3
    ensures Encode(t + v) == Split(t[0], t[1], t[2]) + Encode(v)
  {
    assert (t + v)[3..] == v;
  }

  lemma {:induction false} EncodeDecode(d: seq<Symbol>)
    requires Decode(d).Some?
    ensures Encode(Decode(d).value) == d
  {
    if |d| > 0 {
      if d[2].Digit? && d[3].Digit? {
        EncodeDecode(d[4..]);
        EncodeGroup(d[0].value, d[1].value, d[2].value, d[3].value, d[4..]);
        assert d == [d[0], d[1], d[2], d[3]] + d[4..];
      } else {
        EncodePadded(d);
      }
    }
  }
}
