/**
 * `unicode.encode('utf-8')` as defined by RFC 3629 (section 3), and a decoder that
 * accepts exactly the well-formed, shortest encodings, used to state what a reply
 * writes to the HTTP request.
 */
module Utf8 {
  import opened Wrappers

  type byte = b: int | 0 <= b < 0x100

  predicate IsContinuation(b: byte) {
    0x80 <= b < 0xC0
  }

  /** Integers that are Unicode scalar values, i.e. that a Dafny `char` can hold. */
  predicate IsScalarValue(n: int) {
    (0 <= n < 0xD800) || (0xE000 <= n < 0x11_0000)
  }

  /** The one to four bytes RFC 3629 assigns to a scalar value. */
  function EncodeChar(c: char): (r: seq<byte>)
    ensures 1 <= |r| <= 4
  {
    var n := c as int;
    if n < 0x80 then [n]
    else if n < 0x800 then [0xC0 + n / 0x40, 0x80 + n % 0x40]
    else if n < 0x1_0000 then [0xE0 + n / 0x1000, 0x80 + (n / 0x40) % 0x40, 0x80 + n % 0x40]
    else [0xF0 + n / 0x4_0000, 0x80 + (n / 0x1000) % 0x40, 0x80 + (n / 0x40) % 0x40, 0x80 + n % 0x40]
  }

  function Encode(s: string): seq<byte> {
    if s == [] then [] else EncodeChar(s[0]) + Encode(s[1..])
  }

  /** The scalar value at the head of `b` and how many bytes it took, or `None` if `b` does not start well-formed. */
  function DecodeChar(b: seq<byte>): (r: Option<(char, nat)>)
    requires |b| > 0
    ensures r.Some? ==> 1 <= r.value.1 <= |b|
  {
    var b0: int := b[0];
    if b0 < 0x80 then
      Some((b0 as char, 1))
    else if 0xC2 <= b0 < 0xE0 && |b| >= 2 && IsContinuation(b[1]) then
      var n := (b0 - 0xC0) * 0x40 + (b[1] as int - 0x80);
      Some((n as char, 2))
    else if 0xE0 <= b0 < 0xF0 && |b| >= 3 && IsContinuation(b[1]) && IsContinuation(b[2]) then
      var n := (b0 - 0xE0) * 0x1000 + (b[1] as int - 0x80) * 0x40 + (b[2] as int - 0x80);
      if 0x800 <= n && IsScalarValue(n) then Some((n as char, 3)) else None
    else if 0xF0 <= b0 < 0xF5 && |b| >= 4 && IsContinuation(b[1]) && IsContinuation(b[2]) && IsContinuation(b[3]) then
      var n := (b0 - 0xF0) * 0x4_0000 + (b[1] as int - 0x80) * 0x1000 + (b[2] as int - 0x80) * 0x40 + (b[3] as int - 0x80);
      if 0x1_0000 <= n < 0x11_0000 then Some((n as char, 4)) else None
    else
      None
  }

  function Decode(b: seq<byte>): Option<string>
    decreases |b|
  {
    if b == [] then Some("")
    else match DecodeChar(b)
      case None => None
      case Some((c, k)) =>
        match Decode(b[k..])
        case None => None
        case Some(s) => Some([c] + s)
  }

  lemma SixBitGroups(n: nat)
    ensures n == (n / 0x40) * 0x40 + n % 0x40
    ensures n / 0x40 == (n / 0x1000) * 0x40 + (n / 0x40) % 0x40
    ensures n / 0x1000 == (n / 0x4_0000) * 0x40 + (n / 0x1000) % 0x40
  {
    assert n / 0x1000 == (n / 0x40) / 0x40;
    assert n / 0x4_0000 == (n / 0x1000) / 0x40;
  }

  lemma DecodeEncodeTwoBytes(c: char, rest: seq<byte>)
    requires 0x80 <= c as int < 0x800
    ensures DecodeChar(EncodeChar(c) + rest) == Some((c, 2))
  {
    SixBitGroups(c as int);
  }

  lemma DecodeEncodeThreeBytes(c: char, rest: seq<byte>)
    requires 0x800 <= c as int < 0x1_0000
    ensures DecodeChar(EncodeChar(c) + rest) == Some((c, 3))
  {
    SixBitGroups(c as int);
  }

  lemma DecodeEncodeFourBytes(c: char, rest: seq<byte>)
    requires 0x1_0000 <= c as int
    ensures DecodeChar(EncodeChar(c) + rest) == Some((c, 4))
  {
    SixBitGroups(c as int);
  }

  /** Decoding the encoding of one character gives it back and consumes exactly its bytes. */
  lemma DecodeEncodeChar(c: char, rest: seq<byte>)
    ensures DecodeChar(EncodeChar(c) + rest) == Some((c, |EncodeChar(c)|))
  {
    var n := c as int;
    if n < 0x80 {
    } else if n < 0x800 {
      DecodeEncodeTwoBytes(c, rest);
    } else if n < 0x1_0000 {
      DecodeEncodeThreeBytes(c, rest);
    } else {
      DecodeEncodeFourBytes(c, rest);
    }
  }

  /** Encoding is undone by decoding, so the written bytes determine the text. */
  lemma {:induction false} DecodeEncode(s: string)
    ensures Decode(Encode(s)) == Some(s)
  {
    if s != [] {
      var e := EncodeChar(s[0]);
      DecodeEncodeChar(s[0], Encode(s[1..]));
      assert (e + Encode(s[1..]))[|e|..] == Encode(s[1..]);
      DecodeEncode(s[1..]);
      assert [s[0]] + s[1..] == s;
    }
  }

  lemma EncodeInjective(s: string, t: string)
    requires Encode(s) == Encode(t)
    ensures s == t
  {
    DecodeEncode(s);
    DecodeEncode(t);
  }
}
