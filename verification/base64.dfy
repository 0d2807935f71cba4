/**
  The base 64 encoding of section 4 of RFC 4648 (alphabet `A-Z a-z 0-9 + /`, `=` padding),
  which `Buffer.prototype.toString('base64')` produces, together with a strict decoder.
 */
module Base64 {
  import opened Common

  /** A 6-bit group: the value of one base 64 character. */
  type sextet = v: int | 0 <= v < 64

  const Pad: char := '='

  /** Table 1 of RFC 4648: the character encoding a 6-bit value. */
  function CharOf(v: sextet): (ch: char)
    ensures ch != Pad
  {
    if v < 26 then ('A' as int + v) as char
    else if v < 52 then ('a' as int + (v - 26)) as char
    else if v < 62 then ('0' as int + (v - 52)) as char
    else if v == 62 then '+'
    else '/'
  }

  /** Inverse of Table 1; `None` for a character outside the alphabet (including `=`). */
  function ValueOf(ch: char): (r: Option<sextet>)
    ensures r.Some? ==> CharOf(r.value) == ch
  {
    if 'A' <= ch <= 'Z' then Some(ch as int - 'A' as int)
    else if 'a' <= ch <= 'z' then Some(ch as int - 'a' as int + 26)
    else if '0' <= ch <= '9' then Some(ch as int - '0' as int + 52)
    else if ch == '+' then Some(62)
    else if ch == '/' then Some(63)
    else None
  }

  lemma ValueOfCharOf(v: sextet)
    ensures ValueOf(CharOf(v)) == Some(v)
  {
  }

  /** The four 6-bit groups of a 24-bit input group. */
  datatype Quad = Quad(v0: sextet, v1: sextet, v2: sextet, v3: sextet)

  /** The three octets of a 24-bit input group. */
  datatype Triple = Triple(b0: byte, b1: byte, b2: byte)

  /** Splits 24 bits, most significant first, into four 6-bit groups. */
  function Split(t: Triple): Quad
  {
    Quad(t.b0 / 4, (t.b0 % 4) * 16 + t.b1 / 16, (t.b1 % 16) * 4 + t.b2 / 64, t.b2 % 64)
  }

  /** Joins four 6-bit groups back into 24 bits. */
  function Join(q: Quad): Triple
  {
    Triple(q.v0 * 4 + q.v1 / 16, (q.v1 % 16) * 16 + q.v2 / 4, (q.v2 % 4) * 64 + q.v3)
  }

  lemma JoinSplit(t: Triple)
    ensures Join(Split(t)) == t
  {
    var hi0, lo0 := t.b0 / 4, t.b0 % 4;
    var hi1, lo1 := t.b1 / 16, t.b1 % 16;
    var hi2, lo2 := t.b2 / 64, t.b2 % 64;
    var q := Split(t);
    assert q.v1 == lo0 * 16 + hi1 && q.v1 / 16 == lo0 && q.v1 % 16 == hi1;
    assert q.v2 == lo1 * 4 + hi2 && q.v2 / 4 == lo1 && q.v2 % 4 == hi2;
  }

  lemma SplitJoin(q: Quad)
    ensures Split(Join(q)) == q
  {
    var hi1, lo1 := q.v1 / 16, q.v1 % 16;
    var hi2, lo2 := q.v2 / 4, q.v2 % 4;
    var t := Join(q);
    assert t.b0 == q.v0 * 4 + hi1 && t.b0 / 4 == q.v0 && t.b0 % 4 == hi1;
    assert t.b1 == lo1 * 16 + hi2 && t.b1 / 16 == lo1 && t.b1 % 16 == hi2;
    assert t.b2 == lo2 * 64 + q.v3 && t.b2 / 64 == lo2 && t.b2 % 64 == q.v3;
  }

  /** Three octets as four characters. */
  function EncodeBlock(t: Triple): string
  {
    var q := Split(t);
    [CharOf(q.v0), CharOf(q.v1), CharOf(q.v2), CharOf(q.v3)]
  }

  /** A final quantum of 8 bits: two characters and two `=`. */
  function EncodeOne(b0: byte): string
  {
    var q := Split(Triple(b0, 0, 0));
    [CharOf(q.v0), CharOf(q.v1), Pad, Pad]
  }

  /** A final quantum of 16 bits: three characters and one `=`. */
  function EncodeTwo(b0: byte, b1: byte): string
  {
    var q := Split(Triple(b0, b1, 0));
    [CharOf(q.v0), CharOf(q.v1), CharOf(q.v2), Pad]
  }

  /** Encodes `data` left to right, three octets per four characters. */
  function Encode(data: Bytes): (s: string)
    ensures |s| == 4 * ((|data| + 2) / 3)
    decreases |data|
  {
    if |data| == 0 then []
    else if |data| == 1 then EncodeOne(data[0])
    else if |data| == 2 then EncodeTwo(data[0], data[1])
    else
      QuantumCount(|data|);
      EncodeBlock(Triple(data[0], data[1], data[2])) + Encode(data[3..])
  }

  /** Three more octets take one more quantum. */
  lemma QuantumCount(n: nat)
    requires n >= 3
    ensures (n + 2) / 3 == (n - 3 + 2) / 3 + 1
  {
  }

  /** Four alphabet characters as three octets. */
  function DecodeBlock(c0: char, c1: char, c2: char, c3: char): Option<Triple>
  {
    var v0, v1, v2, v3 := ValueOf(c0), ValueOf(c1), ValueOf(c2), ValueOf(c3);
    if v0.None? || v1.None? || v2.None? || v3.None? then None
    else Some(Join(Quad(v0.value, v1.value, v2.value, v3.value)))
  }

  /** The last quantum, which may carry padding; the bits padding drops must be zero. */
  function DecodeLast(c0: char, c1: char, c2: char, c3: char): Option<Bytes>
  {
    if c2 == Pad && c3 == Pad then
      var v0, v1 := ValueOf(c0), ValueOf(c1);
      if v0.None? || v1.None? then None
      else
        var t := Join(Quad(v0.value, v1.value, 0, 0));
        if t.b1 != 0 then None else Some([t.b0])
    else if c3 == Pad then
      var v0, v1, v2 := ValueOf(c0), ValueOf(c1), ValueOf(c2);
      if v0.None? || v1.None? || v2.None? then None
      else
        var t := Join(Quad(v0.value, v1.value, v2.value, 0));
        if t.b2 != 0 then None else Some([t.b0, t.b1])
    else
      match DecodeBlock(c0, c1, c2, c3)
      case None => None
      case Some(t) => Some([t.b0, t.b1, t.b2])
  }

  /** Strict decoding: a multiple of four characters, padding only in the final quantum. */
  function Decode(s: string): Option<Bytes>
    decreases |s|
  {
    if |s| == 0 then Some([])
    else if |s| < 4 then None
    else if |s| == 4 then DecodeLast(s[0], s[1], s[2], s[3])
    else
      match DecodeBlock(s[0], s[1], s[2], s[3])
      case None => None
      case Some(t) =>
        match Decode(s[4..])
        case None => None
        case Some(rest) => Some([t.b0, t.b1, t.b2] + rest)
  }

  lemma DecodeEncodeBlock(t: Triple)
    ensures var s := EncodeBlock(t); DecodeBlock(s[0], s[1], s[2], s[3]) == Some(t)
  {
    var q := Split(t);
    ValueOfCharOf(q.v0);
    ValueOfCharOf(q.v1);
    ValueOfCharOf(q.v2);
    ValueOfCharOf(q.v3);
    JoinSplit(t);
  }

  lemma DecodeEncodeOne(b0: byte)
    ensures Decode(EncodeOne(b0)) == Some([b0])
  {
    var q := Split(Triple(b0, 0, 0));
    ValueOfCharOf(q.v0);
    ValueOfCharOf(q.v1);
    JoinSplit(Triple(b0, 0, 0));
    assert Join(Quad(q.v0, q.v1, 0, 0)) == Join(q);
    var s := EncodeOne(b0);
    assert DecodeLast(s[0], s[1], s[2], s[3]) == Some([b0]);
  }

  lemma DecodeEncodeTwo(b0: byte, b1: byte)
    ensures Decode(EncodeTwo(b0, b1)) == Some([b0, b1])
  {
    var q := Split(Triple(b0, b1, 0));
    ValueOfCharOf(q.v0);
    ValueOfCharOf(q.v1);
    ValueOfCharOf(q.v2);
    JoinSplit(Triple(b0, b1, 0));
    assert Join(Quad(q.v0, q.v1, q.v2, 0)) == Join(q);
    var s := EncodeTwo(b0, b1);
    assert DecodeLast(s[0], s[1], s[2], s[3]) == Some([b0, b1]);
  }

  /** Decoding undoes encoding, for every octet string. */
  lemma {:induction false} DecodeEncode(data: Bytes)
    ensures Decode(Encode(data)) == Some(data)
    decreases |data|, 1
  {
    var s := Encode(data);
    if |data| == 0 {
    } else if |data| == 1 {
      DecodeEncodeOne(data[0]);
      assert data == [data[0]];
    } else if |data| == 2 {
      DecodeEncodeTwo(data[0], data[1]);
      assert data == [data[0], data[1]];
    } else {
      DecodeEncodeLong(data);
    }
  }

  lemma DecodeOnlyBlock(t: Triple)
    ensures Decode(EncodeBlock(t)) == Some([t.b0, t.b1, t.b2])
  {
    var s := EncodeBlock(t);
    DecodeEncodeBlock(t);
    assert DecodeLast(s[0], s[1], s[2], s[3]) == Some([t.b0, t.b1, t.b2]);
  }

  lemma DecodeBlockThen(t: Triple, r: string, rest: Bytes)
    requires |r| > 0 && Decode(r) == Some(rest)
    ensures Decode(EncodeBlock(t) + r) == Some([t.b0, t.b1, t.b2] + rest)
  {
    var block := EncodeBlock(t);
    var s := block + r;
    DecodeEncodeBlock(t);
    assert s[0] == block[0] && s[1] == block[1] && s[2] == block[2] && s[3] == block[3];
    assert s[4..] == r;
  }

  lemma {:induction false} DecodeEncodeLong(data: Bytes)
    requires |data| >= 3
    ensures Decode(Encode(data)) == Some(data)
    decreases |data|, 0
  {
    var t := Triple(data[0], data[1], data[2]);
    assert data == [t.b0, t.b1, t.b2] + data[3..];
    assert Encode(data) == EncodeBlock(t) + Encode(data[3..]);
    if |data| == 3 {
      assert Encode(data[3..]) == [];
      assert Encode(data) == EncodeBlock(t);
      assert data == [t.b0, t.b1, t.b2];
      DecodeOnlyBlock(t);
    } else {
      DecodeEncode(data[3..]);
      DecodeBlockThen(t, Encode(data[3..]), data[3..]);
    }
  }

  lemma EncodeDecodeBlock(c0: char, c1: char, c2: char, c3: char)
    requires DecodeBlock(c0, c1, c2, c3).Some?
    ensures EncodeBlock(DecodeBlock(c0, c1, c2, c3).value) == [c0, c1, c2, c3]
  {
    var q := Quad(ValueOf(c0).value, ValueOf(c1).value, ValueOf(c2).value, ValueOf(c3).value);
    SplitJoin(q);
  }

  lemma EncodeDecodeOne(c0: char, c1: char)
    requires DecodeLast(c0, c1, Pad, Pad).Some?
    ensures Encode(DecodeLast(c0, c1, Pad, Pad).value) == [c0, c1, Pad, Pad]
  {
    var q := Quad(ValueOf(c0).value, ValueOf(c1).value, 0, 0);
    SplitJoin(q);
    var b := DecodeLast(c0, c1, Pad, Pad).value;
    assert Triple(b[0], 0, 0) == Join(q);
    assert Encode(b) == EncodeOne(b[0]);
  }

  lemma EncodeDecodeTwo(c0: char, c1: char, c2: char)
    requires c2 != Pad && DecodeLast(c0, c1, c2, Pad).Some?
    ensures Encode(DecodeLast(c0, c1, c2, Pad).value) == [c0, c1, c2, Pad]
  {
    var q := Quad(ValueOf(c0).value, ValueOf(c1).value, ValueOf(c2).value, 0);
    SplitJoin(q);
    var b := DecodeLast(c0, c1, c2, Pad).value;
    assert Triple(b[0], b[1], 0) == Join(q);
    assert Encode(b) == EncodeTwo(b[0], b[1]);
  }

  lemma EncodeDecodeThree(c0: char, c1: char, c2: char, c3: char)
    requires c3 != Pad && DecodeLast(c0, c1, c2, c3).Some?
    ensures Encode(DecodeLast(c0, c1, c2, c3).value) == [c0, c1, c2, c3]
  {
    var t := DecodeBlock(c0, c1, c2, c3).value;
    EncodeDecodeBlock(c0, c1, c2, c3);
    var b := [t.b0, t.b1, t.b2];
    assert b[3..] == [];
    assert Encode(b) == EncodeBlock(t) + Encode(b[3..]);
  }

  lemma EncodeBlockThen(t: Triple, rest: Bytes)
    ensures Encode([t.b0, t.b1, t.b2] + rest) == EncodeBlock(t) + Encode(rest)
  {
    var b := [t.b0, t.b1, t.b2] + rest;
    assert b[3..] == rest;
    assert Triple(b[0], b[1], b[2]) == t;
  }

  lemma EncodeConcat(t: Triple, rest: Bytes, s: string)
    requires |s| >= 4 && EncodeBlock(t) == [s[0], s[1], s[2], s[3]] && Encode(rest) == s[4..]
    ensures Encode([t.b0, t.b1, t.b2] + rest) == s
  {
    EncodeBlockThen(t, rest);
    assert s == [s[0], s[1], s[2], s[3]] + s[4..];
  }

  lemma EncodeDecodeLast(s: string)
    requires |s| == 4 && Decode(s).Some?
    ensures Encode(Decode(s).value) == s
  {
    assert Decode(s) == DecodeLast(s[0], s[1], s[2], s[3]);
    assert s == [s[0], s[1], s[2], s[3]];
    if s[2] == Pad && s[3] == Pad {
      EncodeDecodeOne(s[0], s[1]);
    } else if s[3] == Pad {
      EncodeDecodeTwo(s[0], s[1], s[2]);
    } else {
      EncodeDecodeThree(s[0], s[1], s[2], s[3]);
    }
  }

  /** Unfolds one step of `Decode` on a string longer than one quantum. */
  lemma DecodeLongStep(s: string)
    requires |s| > 4 && Decode(s).Some?
    ensures DecodeBlock(s[0], s[1], s[2], s[3]).Some? && Decode(s[4..]).Some?
    ensures var t := DecodeBlock(s[0], s[1], s[2], s[3]).value;
      Decode(s).value == [t.b0, t.b1, t.b2] + Decode(s[4..]).value
  {
  }

  /** Every string the strict decoder accepts is the encoding of what it decodes to. */
  lemma {:induction false} EncodeDecode(s: string)
    requires Decode(s).Some?
    ensures Encode(Decode(s).value) == s
    decreases |s|
  {
    if |s| == 0 {
    } else if |s| == 4 {
      EncodeDecodeLast(s);
    } else {
      DecodeLongStep(s);
      var t := DecodeBlock(s[0], s[1], s[2], s[3]).value;
      var rest := Decode(s[4..]).value;
      EncodeDecode(s[4..]);
      EncodeDecodeBlock(s[0], s[1], s[2], s[3]);
      EncodeConcat(t, rest, s);
    }
  }

  lemma EncodeExampleBlocks()
    ensures EncodeBlock(Triple(83, 86, 71)) == "U1ZH"
    ensures EncodeBlock(Triple(32, 68, 65)) == "IERB"
    ensures EncodeTwo(84, 65) == "VEE="
  {
  }

  /** The UTF-8 octets of `SVG DATA` encode to `U1ZHIERBVEE=`. */
  lemma EncodeExample()
    ensures Encode([83, 86, 71, 32, 68, 65, 84, 65]) == "U1ZHIERBVEE="
  {
    EncodeExampleBlocks();
    assert Encode([84, 65]) == "VEE=";
    EncodeBlockThen(Triple(32, 68, 65), [84, 65]);
    assert [32, 68, 65] + [84, 65] == [32, 68, 65, 84, 65];
    EncodeBlockThen(Triple(83, 86, 71), [32, 68, 65, 84, 65]);
    assert [83, 86, 71] + [32, 68, 65, 84, 65] == [83, 86, 71, 32, 68, 65, 84, 65];
    assert "U1ZH" + ("IERB" + "VEE=") == "U1ZHIERBVEE=";
  }
}
