/** UTF-8, as `TextEncoder.encode` produces it (section 3 of RFC 3629).
    A Dafny `char` is a Unicode scalar value, so there are no lone
    surrogates to replace. */
module Utf8 {
  import opened Values

  /** A continuation byte: `10xxxxxx`. */
  predicate IsContinuation(b: byte) { 0x80 <= b < 0xC0 }

  /** The encoding of one scalar value: one byte below U+0080, two below
      U+0800, three below U+10000, four above. The lead byte tells the
      length and every further byte is a continuation byte. */
  function EncodeScalar(c: char): (r: seq<byte>)
    ensures 1 <= |r| <= 4
    ensures |r| == 1 <==> c as int < 0x80
    ensures |r| == 1 ==> r[0] == c as int
    ensures |r| == 2 <==> 0x80 <= c as int < 0x800
    ensures |r| == 3 <==> 0x800 <= c as int < 0x1_0000
    ensures |r| == 4 <==> 0x1_0000 <= c as int
    ensures |r| == 2 ==> 0xC2 <= r[0] < 0xE0
    ensures |r| == 3 ==> 0xE0 <= r[0] < 0xF0
    ensures |r| == 4 ==> 0xF0 <= r[0] < 0xF5
    ensures forall i :: 1 <= i < |r| ==> IsContinuation(r[i])
  {
    var n := c as int;
    if n < 0x80 then
      [n]
    else if n < 0x800 then
      [0xC0 + n / 0x40, 0x80 + n % 0x40]
    else if n < 0x1_0000 then
      [0xE0 + n / 0x1000, 0x80 + n / 0x40 % 0x40, 0x80 + n % 0x40]
    else
      [0xF0 + n / 0x4_0000, 0x80 + n / 0x1000 % 0x40, 0x80 + n / 0x40 % 0x40, 0x80 + n % 0x40]
  }

  /** The scalar value that a one- to four-byte sequence encodes. */
  function DecodeScalar(b: seq<byte>): int
    requires 1 <= |b| <= 4
  {
    if |b| == 1 then b[0] as int
    else if |b| == 2 then (b[0] as int - 0xC0) * 0x40 + (b[1] as int - 0x80)
    else if |b| == 3 then (b[0] as int - 0xE0) * 0x1000 + (b[1] as int - 0x80) * 0x40 + (b[2] as int - 0x80)
    else (b[0] as int - 0xF0) * 0x4_0000 + (b[1] as int - 0x80) * 0x1000 + (b[2] as int - 0x80) * 0x40 + (b[3] as int - 0x80)
  }

  /** Decoding an encoded scalar value gives it back. */
  lemma DecodeEncodeScalar(c: char)
    ensures DecodeScalar(EncodeScalar(c)) == c as int
  {
    var n := c as int;
    if n >= 0x800 {
      assert n / 0x40 == (n / 0x40 / 0x40) * 0x40 + n / 0x40 % 0x40;
      assert n / 0x1000 == n / 0x40 / 0x40;
      if n >= 0x1_0000 {
        assert n / 0x1000 == (n / 0x1000 / 0x40) * 0x40 + n / 0x1000 % 0x40;
        assert n / 0x4_0000 == n / 0x1000 / 0x40;
      }
    }
  }

  /** `TextEncoder.encode`: the encodings of the characters, in order. */
  function Encode(s: string): (r: seq<byte>)
    ensures |s| <= |r| <= 4 * |s|
  {
    if s == [] then [] else EncodeScalar(s[0]) + Encode(s[1..])
  }

  /** A string of ASCII characters encodes to its code points, one byte
      per character. */
  lemma {:induction false} EncodeAscii(s: string)
    requires forall i :: 0 <= i < |s| ==> s[i] as int < 0x80
    ensures |Encode(s)| == |s|
    ensures forall i :: 0 <= i < |s| ==> Encode(s)[i] == s[i] as int
  {
    if s != [] {
      EncodeAscii(s[1..]);
    }
  }
}
