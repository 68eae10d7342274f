/**
 * UTF-8 as in section 3 of RFC 3629. A Dafny `char` is a Unicode scalar value, so a `string` is a
 * well-formed JavaScript string.
 */
module Utf8 {
  import opened Wrappers

  type Byte = x: int | 0 <= x < 256

  const REPLACEMENT: char := '\U{FFFD}'

  function EncodeChar(c: char): (b: seq<Byte>)
    ensures 1 <= |b| <= 4
  {
    var v := c as int;
    if v < 0x80 then [v]
    else if v < 0x800 then [0xC0 + v / 64, 0x80 + v % 64]
    else if v < 0x10000 then [0xE0 + v / 4096, 0x80 + v / 64 % 64, 0x80 + v % 64]
    else [0xF0 + v / 262144, 0x80 + v / 4096 % 64, 0x80 + v / 64 % 64, 0x80 + v % 64]
  }

  function Encode(s: string): seq<Byte> {
    if s == "" then [] else EncodeChar(s[0]) + Encode(s[1..])
  }

  /** The code points that two, three and four bytes spell. */
  function Two(b0: int, b1: int): int {
    (b0 - 0xC0) * 64 + (b1 - 0x80)
  }

  function Three(b0: int, b1: int, b2: int): int {
    ((b0 - 0xE0) * 64 + (b1 - 0x80)) * 64 + (b2 - 0x80)
  }

  function Four(b0: int, b1: int, b2: int, b3: int): int {
    (((b0 - 0xF0) * 64 + (b1 - 0x80)) * 64 + (b2 - 0x80)) * 64 + (b3 - 0x80)
  }

  predicate Continues(b: seq<Byte>, i: nat, low: Byte, high: Byte) {
    i < |b| && low <= b[i] <= high
  }

  /**
   * The first character of the bytes and the number of bytes it takes; None when they start with no
   * character, and then the number of bytes is that of the longest beginning some character has.
   */
  function DecodeOne(b: seq<Byte>): (r: (Option<char>, nat))
    requires b != []
    ensures 1 <= r.1 <= |b|
  {
    var b0 := b[0];
    if b0 < 0x80 then (Some(b0 as char), 1)
    else if 0xC2 <= b0 <= 0xDF then
      if !Continues(b, 1, 0x80, 0xBF) then (None, 1)
      else (Some(Two(b0, b[1]) as char), 2)
    else if 0xE0 <= b0 <= 0xEF then
      if !Continues(b, 1, if b0 == 0xE0 then 0xA0 else 0x80, if b0 == 0xED then 0x9F else 0xBF) then (None, 1)
      else if !Continues(b, 2, 0x80, 0xBF) then (None, 2)
      else (Some(Three(b0, b[1], b[2]) as char), 3)
    else if 0xF0 <= b0 <= 0xF4 then
      if !Continues(b, 1, if b0 == 0xF0 then 0x90 else 0x80, if b0 == 0xF4 then 0x8F else 0xBF) then (None, 1)
      else if !Continues(b, 2, 0x80, 0xBF) then (None, 2)
      else if !Continues(b, 3, 0x80, 0xBF) then (None, 3)
      else (Some(Four(b0, b[1], b[2], b[3]) as char), 4)
    else (None, 1)
  }

  /** Decoding that puts the replacement character for what is not UTF-8, as Buffer.toString does. */
  function Decode(b: seq<Byte>): string {
    if b == [] then ""
    else
      var (c, n) := DecodeOne(b);
      [if c.Some? then c.value else REPLACEMENT] + Decode(b[n..])
  }

  /** Decoding that fails on what is not UTF-8. */
  function DecodeStrict(b: seq<Byte>): Option<string> {
    if b == [] then Some("")
    else
      var (c, n) := DecodeOne(b);
      var rest := DecodeStrict(b[n..]);
      if c.Some? && rest.Some? then Some([c.value] + rest.value) else None
  }

  /** The encoding of a character is what is decoded to it, and nothing else is. */
  lemma DecodeOneIff(b: seq<Byte>, c: char, n: nat)
    requires b != [] && n <= |b|
    ensures DecodeOne(b) == (Some(c), n) <==> b[..n] == EncodeChar(c)
  {
    DecodeOneEncoded(c, b, n);
    if DecodeOne(b) == (Some(c), n) {
      EncodeDecoded(b, c, n);
    }
  }

  // The bytes of a code point spell it, and the bytes that spell it are its own.

  lemma ThreeDigits(v: int)
    requires 0 <= v < 0x10000
    ensures v / 64 == v / 4096 * 64 + v / 64 % 64
    ensures Three(0xE0 + v / 4096, 0x80 + v / 64 % 64, 0x80 + v % 64) == v
  {
  }

  lemma FourDigits(v: int)
    requires 0 <= v < 0x110000
    ensures v / 4096 == v / 262144 * 64 + v / 4096 % 64 && v / 64 == v / 4096 * 64 + v / 64 % 64
    ensures Four(0xF0 + v / 262144, 0x80 + v / 4096 % 64, 0x80 + v / 64 % 64, 0x80 + v % 64) == v
  {
  }

  lemma DecodeOneEncoded(c: char, b: seq<Byte>, n: nat)
    requires b != [] && n <= |b|
    ensures b[..n] == EncodeChar(c) ==> DecodeOne(b) == (Some(c), n)
  {
    if b[..n] == EncodeChar(c) {
      assert n == |EncodeChar(c)|;
      assert forall i :: 0 <= i < n ==> b[i] == b[..n][i];
      if n == 3 {
        DecodeThree(c, b);
      } else if n == 4 {
        DecodeFour(c, b);
      }
    }
  }

  lemma DecodeThree(c: char, b: seq<Byte>)
    requires 0x800 <= c as int < 0x10000 && |b| >= 3
    requires b[0] == 0xE0 + c as int / 4096 && b[1] == 0x80 + c as int / 64 % 64 && b[2] == 0x80 + c as int % 64
    ensures DecodeOne(b) == (Some(c), 3)
  {
    ThreeDigits(c as int);
  }

  lemma DecodeFour(c: char, b: seq<Byte>)
    requires 0x10000 <= c as int && |b| >= 4
    requires b[0] == 0xF0 + c as int / 262144 && b[1] == 0x80 + c as int / 4096 % 64
    requires b[2] == 0x80 + c as int / 64 % 64 && b[3] == 0x80 + c as int % 64
    ensures DecodeOne(b) == (Some(c), 4)
  {
    FourDigits(c as int);
  }

  lemma SpelledByThree(x: int, y: int, z: int)
    requires 0 <= x && 0 <= y < 64 && 0 <= z < 64
    ensures var v := (x * 64 + y) * 64 + z; v / 4096 == x && v / 64 % 64 == y && v % 64 == z
  {
  }

  lemma SpelledByFour(w: int, x: int, y: int, z: int)
    requires 0 <= w && 0 <= x < 64 && 0 <= y < 64 && 0 <= z < 64
    ensures var v := ((w * 64 + x) * 64 + y) * 64 + z;
            v / 262144 == w && v / 4096 % 64 == x && v / 64 % 64 == y && v % 64 == z
  {
    SpelledByThree(w * 64 + x, y, z);
    assert (w * 64 + x) / 64 == w;
  }

  lemma EncodeDecodedThree(b: seq<Byte>, c: char)
    requires |b| >= 3 && 0xE0 <= b[0] <= 0xEF && DecodeOne(b) == (Some(c), 3)
    ensures EncodeChar(c) == [b[0], b[1], b[2]]
  {
    SpelledByThree(b[0] as int - 0xE0, b[1] as int - 0x80, b[2] as int - 0x80);
  }

  lemma EncodeDecodedFour(b: seq<Byte>, c: char)
    requires |b| >= 4 && 0xF0 <= b[0] <= 0xF4 && DecodeOne(b) == (Some(c), 4)
    ensures EncodeChar(c) == [b[0], b[1], b[2], b[3]]
  {
    SpelledByFour(b[0] as int - 0xF0, b[1] as int - 0x80, b[2] as int - 0x80, b[3] as int - 0x80);
  }

  lemma EncodeDecoded(b: seq<Byte>, c: char, n: nat)
    requires b != [] && n <= |b| && DecodeOne(b) == (Some(c), n)
    ensures b[..n] == EncodeChar(c)
  {
    if n == 3 {
      EncodeDecodedThree(b, c);
    } else if n == 4 {
      EncodeDecodedFour(b, c);
    }
  }

  lemma DecodeHead(c: char, rest: seq<Byte>)
    ensures DecodeOne(EncodeChar(c) + rest) == (Some(c), |EncodeChar(c)|)
  {
    var n := |EncodeChar(c)|;
    assert (EncodeChar(c) + rest)[..n] == EncodeChar(c);
    DecodeOneIff(EncodeChar(c) + rest, c, n);
  }

  lemma {:induction false} DecodeEncode(s: string)
    ensures Decode(Encode(s)) == s
  {
    if s != "" {
      var n := |EncodeChar(s[0])|;
      DecodeHead(s[0], Encode(s[1..]));
      assert Encode(s)[n..] == Encode(s[1..]);
      DecodeEncode(s[1..]);
    }
  }

  /** Strict decoding is the exact inverse of encoding: it succeeds on encodings only. */
  lemma {:induction false} DecodeStrictIff(b: seq<Byte>, s: string)
    ensures DecodeStrict(b) == Some(s) <==> b == Encode(s)
  {
    if b != [] {
      var (c, n) := DecodeOne(b);
      if s == "" {
        assert Encode(s) == [];
      } else {
        DecodeStrictIff(b[n..], s[1..]);
        assert s == [s[0]] + s[1..];
        assert b == b[..n] + b[n..];
        if b == Encode(s) {
          DecodeHead(s[0], Encode(s[1..]));
          assert b[n..] == Encode(s[1..]);
        }
        if DecodeStrict(b) == Some(s) {
          EncodeDecoded(b, c.value, n);
          assert DecodeStrict(b[n..]).value == s[1..];
        }
      }
    }
  }

  // ---- the bytes themselves ----

  predicate Continuation(b: int) {
    0x80 <= b < 0xC0
  }

  predicate TwoBytes(v: int, b0: int, b1: int) {
    0xC0 <= b0 < 0xE0 && Continuation(b1) && v == (b0 - 0xC0) * 64 + (b1 - 0x80)
  }

  predicate ThreeBytes(v: int, b0: int, b1: int, b2: int) {
    0xE0 <= b0 < 0xF0 && Continuation(b1) && Continuation(b2) && v == (b0 - 0xE0) * 4096 + (b1 - 0x80) * 64 + (b2 - 0x80)
  }

  predicate FourBytes(v: int, b0: int, b1: int, b2: int, b3: int) {
    && 0xF0 <= b0 < 0xF5 && Continuation(b1) && Continuation(b2) && Continuation(b3)
    && v == (b0 - 0xF0) * 262144 + (b1 - 0x80) * 4096 + (b2 - 0x80) * 64 + (b3 - 0x80)
  }

  /** One to four bytes by the size of the code point: the lengths, leading bytes and payload bits of RFC 3629. */
  lemma BytesOfChar(c: char)
    ensures var b, v := EncodeChar(c), c as int;
            if v < 0x80 then b == [v]
            else if v < 0x800 then |b| == 2 && TwoBytes(v, b[0], b[1])
            else if v < 0x10000 then |b| == 3 && ThreeBytes(v, b[0], b[1], b[2])
            else |b| == 4 && FourBytes(v, b[0], b[1], b[2], b[3])
  {
    var v := c as int;
    if 0x800 <= v < 0x10000 {
      ThreeDigits(v);
    } else if v >= 0x10000 {
      FourDigits(v);
    }
  }
}
