// Byte and code-unit lengths of strings. The terminal's input frame carries
// the UTF-8 byte count of its payload (the count a TextEncoder produces), and
// the form validators of the frontend count UTF-16 code units (JavaScript
// `String.length`), while the backend validators count code points.
//
// The UTF-8 encoding is the one of section 3 of RFC 3629. A Dafny `char` is a
// Unicode scalar value, so every string here is encodable.
module Utf8 {
  import opened Prelude

  type byte = x: int | 0 <= x < 256

  predicate IsScalar(cp: int) { 0 <= cp < 0xD800 || 0xE000 <= cp < 0x11_0000 }

  /** Number of UTF-8 bytes of one code point (RFC 3629, section 3, table). */
  function CharLen(c: char): (n: nat)
    ensures 1 <= n <= 4
  {
    var cp := c as int;
    if cp < 0x80 then 1 else if cp < 0x800 then 2 else if cp < 0x1_0000 then 3 else 4
  }

  /** UTF-8 byte length of a string: `new TextEncoder().encode(s).length`. */
  function Utf8Len(s: string): nat
  {
    if s == [] then 0 else CharLen(s[0]) + Utf8Len(s[1..])
  }

  function EncodeChar(c: char): (r: seq<byte>)
    ensures |r| == CharLen(c)
  {
    var cp := c as int;
    if cp < 0x80 then [cp]
    else if cp < 0x800 then [0xC0 + cp / 64, 0x80 + cp % 64]
    else if cp < 0x1_0000 then [0xE0 + cp / 4096, 0x80 + (cp / 64) % 64, 0x80 + cp % 64]
    else [0xF0 + cp / 262144, 0x80 + (cp / 4096) % 64, 0x80 + (cp / 64) % 64, 0x80 + cp % 64]
  }

  /** The UTF-8 encoding of a string. */
  function Encode(s: string): (r: seq<byte>)
  {
    if s == [] then [] else EncodeChar(s[0]) + Encode(s[1..])
  }

  predicate IsCont(b: byte) { 0x80 <= b < 0xC0 }

  /** Decodes the first code point of `b`, rejecting overlong forms,
      surrogates and values above U+10FFFF; gives the code point and its length. */
  function DecodeOne(b: seq<byte>): (r: Option<(char, nat)>)
    requires |b| > 0
    ensures r.Some? ==> 1 <= r.value.1 <= |b|
  {
    var b0: int := b[0];
    if b0 < 0x80 then Some((b0 as char, 1))
    else if 0xC2 <= b0 < 0xE0 && |b| >= 2 && IsCont(b[1]) then
      Some((Join2(b0, b[1]) as char, 2))
    else if 0xE0 <= b0 < 0xF0 && |b| >= 3 && IsCont(b[1]) && IsCont(b[2]) then
      var cp := Join3(b0, b[1], b[2]);
      if cp >= 0x800 && IsScalar(cp) then Some((cp as char, 3)) else None
    else if 0xF0 <= b0 < 0xF5 && |b| >= 4 && IsCont(b[1]) && IsCont(b[2]) && IsCont(b[3]) then
      var cp := Join4(b0, b[1], b[2], b[3]);
      if 0x1_0000 <= cp < 0x11_0000 then Some((cp as char, 4)) else None
    else None
  }

  /** The code point carried by a two-, three- or four-byte sequence. */
  function Join2(b0: int, b1: int): (cp: int)
    requires 0xC2 <= b0 < 0xE0 && 0x80 <= b1 < 0xC0
    ensures 0x80 <= cp < 0x800
  {
    (b0 - 0xC0) * 64 + (b1 - 0x80)
  }

  function Join3(b0: int, b1: int, b2: int): (cp: int)
    requires 0xE0 <= b0 < 0xF0 && 0x80 <= b1 < 0xC0 && 0x80 <= b2 < 0xC0
    ensures 0 <= cp < 0x1_0000
  {
    (b0 - 0xE0) * 4096 + (b1 - 0x80) * 64 + (b2 - 0x80)
  }

  function Join4(b0: int, b1: int, b2: int, b3: int): (cp: int)
    requires 0xF0 <= b0 < 0xF5 && 0x80 <= b1 < 0xC0 && 0x80 <= b2 < 0xC0 && 0x80 <= b3 < 0xC0
    ensures 0 <= cp
  {
    (b0 - 0xF0) * 262144 + (b1 - 0x80) * 4096 + (b2 - 0x80) * 64 + (b3 - 0x80)
  }

  /** Strict UTF-8 decoding; `None` for any ill-formed input. */
  function Decode(b: seq<byte>): Option<string>
    decreases |b|
  {
    if b == [] then Some([])
    else match DecodeOne(b)
      case None => None
      case Some((c, n)) =>
        match Decode(b[n..])
        case None => None
        case Some(s) => Some([c] + s)
  }

  /** The encoding has exactly the length Utf8Len counts. */
  lemma {:induction false} EncodeLength(s: string)
    ensures |Encode(s)| == Utf8Len(s)
  {
    if s != [] { EncodeLength(s[1..]); }
  }

  lemma DecodeOneEncodeChar(c: char, rest: seq<byte>)
    ensures DecodeOne(EncodeChar(c) + rest) == Some((c, CharLen(c)))
  {
    var cp := c as int;
    if cp < 0x80 {
    } else if cp < 0x800 {
      DecodeTwo(c, rest);
    } else if cp < 0x1_0000 {
      DecodeThree(c, rest);
    } else {
      DecodeFour(c, rest);
    }
  }

  lemma DecodeTwo(c: char, rest: seq<byte>)
    requires 0x80 <= c as int < 0x800
    ensures DecodeOne(EncodeChar(c) + rest) == Some((c, 2))
  {
    var cp := c as int;
    var b := EncodeChar(c) + rest;
    var q, r := cp / 64, cp % 64;
    assert b[0] == 0xC0 + q && b[1] == 0x80 + r;
    assert Join2(b[0], b[1]) == q * 64 + r == cp;
  }

  lemma DecodeThree(c: char, rest: seq<byte>)
    requires 0x800 <= c as int < 0x1_0000
    ensures DecodeOne(EncodeChar(c) + rest) == Some((c, 3))
  {
    var cp := c as int;
    var b := EncodeChar(c) + rest;
    var q, r := cp / 64, cp % 64;
    var q2, r2 := q / 64, q % 64;
    assert cp / 4096 == q2;
    assert b[0] == 0xE0 + q2 && b[1] == 0x80 + r2 && b[2] == 0x80 + r;
    assert Join3(b[0], b[1], b[2]) == q2 * 4096 + r2 * 64 + r == cp;
  }

  lemma DecodeFour(c: char, rest: seq<byte>)
    requires 0x1_0000 <= c as int
    ensures DecodeOne(EncodeChar(c) + rest) == Some((c, 4))
  {
    var cp := c as int;
    var b := EncodeChar(c) + rest;
    var q, r := cp / 64, cp % 64;
    var q2, r2 := q / 64, q % 64;
    var q3, r3 := q2 / 64, q2 % 64;
    assert cp / 4096 == q2 && cp / 262144 == q3;
    assert b[0] == 0xF0 + q3 && b[1] == 0x80 + r3 && b[2] == 0x80 + r2 && b[3] == 0x80 + r;
    assert Join4(b[0], b[1], b[2], b[3]) == q3 * 262144 + r3 * 4096 + r2 * 64 + r == cp;
  }

  /** Decoding inverts encoding. */
  lemma {:induction false} DecodeEncode(s: string)
    ensures Decode(Encode(s)) == Some(s)
  {
    if s != [] {
      var e := EncodeChar(s[0]);
      DecodeOneEncodeChar(s[0], Encode(s[1..]));
      assert (e + Encode(s[1..]))[|e|..] == Encode(s[1..]);
      DecodeEncode(s[1..]);
      assert [s[0]] + s[1..] == s;
    }
  }

  lemma {:induction false} Utf8LenAppend(s: string, t: string)
    ensures Utf8Len(s + t) == Utf8Len(s) + Utf8Len(t)
  {
    if s == [] {
      assert s + t == t;
    } else {
      assert (s + t)[0] == s[0] && (s + t)[1..] == s[1..] + t;
      Utf8LenAppend(s[1..], t);
    }
  }

  /** Every code point takes between one and four bytes. */
  lemma {:induction false} Utf8LenBounds(s: string)
    ensures |s| <= Utf8Len(s) <= 4 * |s|
  {
    if s != [] { Utf8LenBounds(s[1..]); }
  }

  predicate IsAscii(s: string) { forall i :: 0 <= i < |s| ==> s[i] as int < 0x80 }

  /** For ASCII text the byte count is the character count. */
  lemma {:induction false} Utf8LenAscii(s: string)
    requires IsAscii(s)
    ensures Utf8Len(s) == |s|
  {
    if s != [] { Utf8LenAscii(s[1..]); }
  }

  /** JavaScript `String.length`: code points above U+FFFF take a surrogate pair. */
  function Utf16Len(s: string): nat
  {
    if s == [] then 0 else (if s[0] as int >= 0x1_0000 then 2 else 1) + Utf16Len(s[1..])
  }

  /** UTF-16 lengths lie between the code-point count and twice it, and never
      exceed the UTF-8 length. */
  lemma {:induction false} Utf16LenBounds(s: string)
    ensures |s| <= Utf16Len(s) <= 2 * |s|
    ensures Utf16Len(s) <= Utf8Len(s)
  {
    if s != [] { Utf16LenBounds(s[1..]); }
  }

  lemma {:induction false} Utf16LenAscii(s: string)
    requires IsAscii(s)
    ensures Utf16Len(s) == |s|
  {
    if s != [] { Utf16LenAscii(s[1..]); }
  }

  /** Outside the basic multilingual plane every character takes two code
      units. */
  lemma {:induction false} Utf16LenAstral(s: string)
    requires forall i :: 0 <= i < |s| ==> s[i] as int >= 0x1_0000
    ensures Utf16Len(s) == 2 * |s|
  {
    if s != [] {
      assert forall i :: 0 <= i < |s| - 1 ==> s[1..][i] == s[i + 1];
      Utf16LenAstral(s[1..]);
    }
  }
}
