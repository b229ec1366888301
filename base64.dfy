/**
 * Base64 in the standard alphabet with `=` padding (section 4 of RFC 4648),
 * as used to write pre-key records into JSON and to key the legacy group map.
 */
module Base64 {
  import opened Wrappers
  import opened JavaTypes

  type Sextet = x: int | 0 <= x < 64

  /** The alphabet `A-Z a-z 0-9 + /`. */
  function CharOf(v: Sextet): (c: char)
  {
    if v < 26 then 'A' + (v as char)
    else if v < 52 then 'a' + ((v - 26) as char)
    else if v < 62 then '0' + ((v - 52) as char)
    else if v == 62 then '+'
    else '/'
  }

  function ValueOf(c: char): (r: Option<Sextet>)
    ensures r.Some? ==> CharOf(r.value) == c
  {
    if 'A' <= c <= 'Z' then Some((c - 'A') as int)
    else if 'a' <= c <= 'z' then Some((c - 'a') as int + 26)
    else if '0' <= c <= '9' then Some((c - '0') as int + 52)
    else if c == '+' then Some(62)
    else if c == '/' then Some(63)
    else None
  }

  lemma ValueOfCharOf(v: Sextet)
    ensures ValueOf(CharOf(v)) == Some(v)
  {
  }

  /** The four characters for three bytes. */
  function EncodeTriple(b0: byte, b1: byte, b2: byte): (s: string)
    ensures |s| == 4
  {
    [CharOf(b0 / 4), CharOf((b0 % 4) * 16 + b1 / 16), CharOf((b1 % 16) * 4 + b2 / 64), CharOf(b2 % 64)]
  }

  /** `Base64.encodeBytes`: whole triples, then a padded tail of one or two bytes. */
  function Encode(b: Bytes): (s: string)
    decreases |b|
  {
    if |b| == 0 then ""
    else if |b| == 1 then EncodeTriple(b[0], 0, 0)[..2] + "=="
    else if |b| == 2 then EncodeTriple(b[0], b[1], 0)[..3] + "="
    else EncodeTriple(b[0], b[1], b[2]) + Encode(b[3..])
  }

  function Byte0(v0: Sextet, v1: Sextet): byte { v0 * 4 + v1 / 16 }
  function Byte1(v1: Sextet, v2: Sextet): byte { (v1 % 16) * 16 + v2 / 4 }
  function Byte2(v2: Sextet, v3: Sextet): byte { (v2 % 4) * 64 + v3 }

  /** Decodes one group of four characters; `=` may only pad the last group. */
  function DecodeQuad(q: string, last: bool): (r: Option<Bytes>)
    requires |q| == 4
    ensures r.Some? ==> 1 <= |r.value| <= 3
  {
    var v0, v1, v2, v3 := ValueOf(q[0]), ValueOf(q[1]), ValueOf(q[2]), ValueOf(q[3]);
    if v0.None? || v1.None? then None
    else if v2.Some? && v3.Some? then
      Some([Byte0(v0.value, v1.value), Byte1(v1.value, v2.value), Byte2(v2.value, v3.value)])
    else if last && v2.Some? && q[3] == '=' then
      Some([Byte0(v0.value, v1.value), Byte1(v1.value, v2.value)])
    else if last && q[2] == '=' && q[3] == '=' then
      Some([Byte0(v0.value, v1.value)])
    else None
  }

  /** `Base64.decode`, strict: the length must be a multiple of four and every character is in the alphabet. */
  function Decode(s: string): (r: Option<Bytes>)
    decreases |s|
  {
    if |s| == 0 then Some([])
    else if |s| < 4 then None
    else
      match DecodeQuad(s[..4], |s| == 4)
      case None => None
      case Some(head) =>
        match Decode(s[4..])
        case None => None
        case Some(tail) => Some(head + tail)
  }

  lemma Div16(q: int, r: int)
    requires 0 <= r < 16
    ensures (q * 16 + r) / 16 == q && (q * 16 + r) % 16 == r
  {
  }

  lemma Div4(q: int, r: int)
    requires 0 <= r < 4
    ensures (q * 4 + r) / 4 == q && (q * 4 + r) % 4 == r
  {
  }

  /** Splitting three bytes into sextets and joining them again gives the bytes back. */
  lemma SextetsRejoin(b0: byte, b1: byte, b2: byte)
    ensures Byte0(b0 / 4, (b0 % 4) * 16 + b1 / 16) == b0
    ensures Byte1((b0 % 4) * 16 + b1 / 16, (b1 % 16) * 4 + b2 / 64) == b1
    ensures Byte2((b1 % 16) * 4 + b2 / 64, b2 % 64) == b2
  {
    Div16(b0 % 4, b1 / 16);
    Div4(b1 % 16, b2 / 64);
  }

  lemma TripleRoundTrip(b0: byte, b1: byte, b2: byte, last: bool)
    ensures DecodeQuad(EncodeTriple(b0, b1, b2), last) == Some([b0, b1, b2])
  {
    ValueOfCharOf(b0 / 4);
    ValueOfCharOf((b0 % 4) * 16 + b1 / 16);
    ValueOfCharOf((b1 % 16) * 4 + b2 / 64);
    ValueOfCharOf(b2 % 64);
    SextetsRejoin(b0, b1, b2);
  }

  lemma {:induction false} OneByteRoundTrip(b0: byte)
    ensures Decode(Encode([b0])) == Some([b0])
  {
    var c0, c1 := CharOf(b0 / 4), CharOf((b0 % 4) * 16);
    var s := Encode([b0]);
    assert s == [c0, c1, '=', '='];
    ValueOfCharOf(b0 / 4);
    ValueOfCharOf((b0 % 4) * 16);
    SextetsRejoin(b0, 0, 0);
    assert DecodeQuad(s, true) == Some([b0]);
    assert s[..4] == s && Decode(s[4..]) == Some([]);
    assert [b0] + [] == [b0];
  }

  lemma {:induction false} TwoBytesRoundTrip(b0: byte, b1: byte)
    ensures Decode(Encode([b0, b1])) == Some([b0, b1])
  {
    var c0, c1, c2 := CharOf(b0 / 4), CharOf((b0 % 4) * 16 + b1 / 16), CharOf((b1 % 16) * 4);
    var s := Encode([b0, b1]);
    assert s == [c0, c1, c2, '='];
    ValueOfCharOf(b0 / 4);
    ValueOfCharOf((b0 % 4) * 16 + b1 / 16);
    ValueOfCharOf((b1 % 16) * 4);
    SextetsRejoin(b0, b1, 0);
    assert DecodeQuad(s, true) == Some([b0, b1]);
    assert s[..4] == s && Decode(s[4..]) == Some([]);
    assert [b0, b1] + [] == [b0, b1];
  }

  lemma DecodeCons(q: string, rest: string, head: Bytes, tail: Bytes)
    requires |q| == 4
    requires DecodeQuad(q, rest == []) == Some(head) && Decode(rest) == Some(tail)
    ensures Decode(q + rest) == Some(head + tail)
  {
    var s := q + rest;
    assert s[..4] == q && s[4..] == rest;
  }

  lemma {:induction false} DecodeEncode(b: Bytes)
    ensures Decode(Encode(b)) == Some(b)
    decreases |b|
  {
    if |b| == 0 {
    } else if |b| == 1 {
      assert b == [b[0]];
      OneByteRoundTrip(b[0]);
    } else if |b| == 2 {
      assert b == [b[0], b[1]];
      TwoBytesRoundTrip(b[0], b[1]);
    } else {
      var q, rest := EncodeTriple(b[0], b[1], b[2]), Encode(b[3..]);
      var head, tail := b[..3], b[3..];
      assert head == [b[0], b[1], b[2]];
      assert head + tail == b;
      assert Encode(b) == q + rest;
      TripleRoundTrip(b[0], b[1], b[2], rest == []);
      DecodeEncode(tail);
      DecodeCons(q, rest, head, tail);
    }
  }

  /** Distinct byte strings have distinct encodings, so the encoding can serve as a map key. */
  lemma EncodeInjective(a: Bytes, b: Bytes)
    ensures Encode(a) == Encode(b) ==> a == b
  {
    DecodeEncode(a);
    DecodeEncode(b);
  }
}
