/**
 UTF-8 as section 4 of RFC 3629 defines it: which byte sequences are one rune, and how many
 bytes a decoder consumes at the front of a string.
 */
module Utf8 {

  type byte = x: int | 0 <= x < 256

  /** A continuation byte: `UTF8-tail` in the grammar. */
  predicate Tail(b: byte) {
    0x80 <= b <= 0xBF
  }

  /** The bytes of the well-formed rune at the front of `s`, or 0 when there is none. */
  function RuneSize(s: seq<byte>): (n: nat)
    ensures n <= 4 && n <= |s|
  {
    if s == [] then 0
    else if s[0] < 0x80 then 1
    else if 0xC2 <= s[0] <= 0xDF then
      if |s| >= 2 && Tail(s[1]) then 2 else 0
    else if 0xE0 <= s[0] <= 0xEF then
      if |s| >= 3 && Tail(s[1]) && Tail(s[2])
         && (s[0] == 0xE0 ==> 0xA0 <= s[1]) && (s[0] == 0xED ==> s[1] <= 0x9F) then 3 else 0
    else if 0xF0 <= s[0] <= 0xF4 then
      if |s| >= 4 && Tail(s[1]) && Tail(s[2]) && Tail(s[3])
         && (s[0] == 0xF0 ==> 0x90 <= s[1]) && (s[0] == 0xF4 ==> s[1] <= 0x8F) then 4 else 0
    else 0
  }

  /** `g` is the encoding of exactly one rune. */
  predicate IsRune(g: seq<byte>) {
    g != [] && RuneSize(g) == |g|
  }

  /** A decoder positioned on a rune consumes that rune, whatever follows it. */
  lemma RuneSizeOfPrefix(g: seq<byte>, rest: seq<byte>)
    requires IsRune(g)
    ensures RuneSize(g + rest) == |g|
  {
    var s := g + rest;
    assert forall i | 0 <= i < |g| :: s[i] == g[i];
  }

  // ---------------------------------------------------------------------------------------
  // Runes are the encodings of Unicode scalar values
  // ---------------------------------------------------------------------------------------

  /** A code point that is not a surrogate. */
  predicate Scalar(c: int) {
    0 <= c < 0xD800 || 0xE000 <= c < 0x11_0000
  }

  function Encoded(c: int): (g: seq<byte>)
    requires Scalar(c)
  {
    if c < 0x80 then [c]
    else if c < 0x800 then [0xC0 + c / 64, 0x80 + c % 64]
    else if c < 0x1_0000 then [0xE0 + c / 4096, 0x80 + c / 64 % 64, 0x80 + c % 64]
    else [0xF0 + c / 262144, 0x80 + c / 4096 % 64, 0x80 + c / 64 % 64, 0x80 + c % 64]
  }

  /** What a byte carries above its marker. */
  function Bits(b: byte, marker: int): (n: int) {
    b - marker
  }

  function Decoded(g: seq<byte>): (c: int)
    requires 1 <= |g| <= 4
  {
    if |g| == 1 then Bits(g[0], 0)
    else if |g| == 2 then Bits(g[0], 0xC0) * 64 + Bits(g[1], 0x80)
    else if |g| == 3 then Bits(g[0], 0xE0) * 4096 + Bits(g[1], 0x80) * 64 + Bits(g[2], 0x80)
    else Bits(g[0], 0xF0) * 262144 + Bits(g[1], 0x80) * 4096 + Bits(g[2], 0x80) * 64 + Bits(g[3], 0x80)
  }

  /** Every scalar value has an encoding, and it is a rune. */
  lemma ScalarIsRune(c: int)
    requires Scalar(c)
    ensures IsRune(Encoded(c)) && Decoded(Encoded(c)) == c
  {
    if c < 0x800 {
    } else if c < 0x1_0000 {
      ThreeBytes(c);
    } else {
      FourBytes(c);
    }
  }

  lemma ThreeBytes(c: int)
    requires Scalar(c) && 0x800 <= c < 0x1_0000
    ensures IsRune(Encoded(c)) && Decoded(Encoded(c)) == c
  {
    var a, b, d := c / 4096, c / 64 % 64, c % 64;
    assert c == a * 4096 + b * 64 + d;
    assert 0 <= a <= 15 && 0 <= b < 64 && 0 <= d < 64;
    assert a == 0 ==> b >= 32;
    assert a == 13 ==> b < 32;
  }

  lemma FourBytes(c: int)
    requires 0x1_0000 <= c < 0x11_0000
    ensures IsRune(Encoded(c)) && Decoded(Encoded(c)) == c
  {
    var a, b, d, e := c / 262144, c / 4096 % 64, c / 64 % 64, c % 64;
    assert c == a * 262144 + b * 4096 + d * 64 + e;
    assert 0 <= a <= 4 && 0 <= b < 64 && 0 <= d < 64 && 0 <= e < 64;
    assert a == 0 ==> b >= 16;
    assert a == 4 ==> b < 16;
  }

  /** And no other byte string is one. */
  lemma RuneIsScalar(g: seq<byte>)
    requires IsRune(g)
    ensures 1 <= |g| <= 4 && Scalar(Decoded(g)) && Encoded(Decoded(g)) == g
  {
    if |g| == 3 {
      ThreeBytesBack(g);
    } else if |g| == 4 {
      FourBytesBack(g);
    }
  }

  lemma ThreeBytesBack(g: seq<byte>)
    requires IsRune(g) && |g| == 3
    ensures Scalar(Decoded(g)) && Encoded(Decoded(g)) == g
  {
    var a, b, d := Bits(g[0], 0xE0), Bits(g[1], 0x80), Bits(g[2], 0x80);
    var c := a * 4096 + b * 64 + d;
    assert c / 64 == a * 64 + b && c % 64 == d;
    assert c / 4096 == a && c / 64 % 64 == b;
  }

  lemma FourBytesBack(g: seq<byte>)
    requires IsRune(g) && |g| == 4
    ensures Scalar(Decoded(g)) && Encoded(Decoded(g)) == g
  {
    var a, b, d, e := Bits(g[0], 0xF0), Bits(g[1], 0x80), Bits(g[2], 0x80), Bits(g[3], 0x80);
    var c := a * 262144 + b * 4096 + d * 64 + e;
    assert c / 64 == a * 4096 + b * 64 + d && c % 64 == e;
    assert c / 4096 == a * 64 + b && c / 64 % 64 == d;
    assert c / 262144 == a && c / 4096 % 64 == b;
  }
}
