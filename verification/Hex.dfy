/** encodeHex and decodeHex: hex bytes of UTF-8 with a leading 0x, and one null byte for no data. */
module Hex {
  import opened Wrappers
  import opened Utf8

  function Digit(n: int, upper: bool): char
    requires 0 <= n < 16
  {
    if n < 10 then ('0' as int + n) as char
    else ((if upper then 'A' as int else 'a' as int) + n - 10) as char
  }

  function Value(c: char): (v: Option<int>)
    ensures v.Some? ==> 0 <= v.value < 16
  {
    if '0' <= c <= '9' then Some(c as int - '0' as int)
    else if 'a' <= c <= 'f' then Some(c as int - 'a' as int + 10)
    else if 'A' <= c <= 'F' then Some(c as int - 'A' as int + 10)
    else None
  }

  lemma ValueOfDigit(n: int, upper: bool)
    requires 0 <= n < 16
    ensures Value(Digit(n, upper)) == Some(n)
  {
  }

  /** The byte two hex digits stand for. */
  function Pair(high: char, low: char): Option<Byte> {
    var h, l := Value(high), Value(low);
    if h.Some? && l.Some? then Some(16 * h.value + l.value) else None
  }

  function OfBytes(b: seq<Byte>): string {
    if b == [] then "" else [Digit(b[0] / 16, false), Digit(b[0] % 16, false)] + OfBytes(b[1..])
  }

  /** Buffer.from(data, 'hex'): the bytes up to the first pair that is not hex. */
  function ToBytes(s: string): seq<Byte> {
    if |s| < 2 || Pair(s[0], s[1]).None? then [] else [Pair(s[0], s[1]).value] + ToBytes(s[2..])
  }

  /** data.replace('0x', ''): the first occurrence goes, wherever it is. */
  function StripPrefix(s: string): string {
    if |s| < 2 then s
    else if s[0] == '0' && s[1] == 'x' then s[2..]
    else [s[0]] + StripPrefix(s[1..])
  }

  function EncodeHex(data: string): string {
    var encoded := OfBytes(Encode(data));
    if encoded == "" then "0x00" else "0x" + encoded
  }

  function DecodeHex(data: string): string {
    var decoded := Decode(ToBytes(StripPrefix(data)));
    if decoded == "\0" then "" else decoded
  }

  lemma {:induction false} ToBytesOfBytes(b: seq<Byte>)
    ensures ToBytes(OfBytes(b)) == b
  {
    if b != [] {
      ValueOfDigit(b[0] / 16, false);
      ValueOfDigit(b[0] % 16, false);
      assert OfBytes(b)[2..] == OfBytes(b[1..]);
      ToBytesOfBytes(b[1..]);
    }
  }

  /** What comes back from a round trip: the string itself, but nothing for a single null character. */
  lemma RoundTrip(s: string)
    ensures DecodeHex(EncodeHex(s)) == if s == "\0" then "" else s
  {
    var encoded := OfBytes(Encode(s));
    ToBytesOfBytes(Encode(s));
    DecodeEncode(s);
    if encoded == "" {
      assert Encode(s) == [];
      assert EncodeHex(s) == "0x" + OfBytes([0]) by {
        assert OfBytes([0]) == "00";
      }
      ToBytesOfBytes([0]);
      DecodeEncode("\0");
      assert Encode("\0") == [0];
      assert ("0x" + OfBytes([0]))[2..] == OfBytes([0]);
    } else {
      assert ("0x" + encoded)[2..] == encoded;
    }
  }

  /** Two strings share an encoding only if they are equal or are the empty string and the null character. */
  lemma InjectiveIff(s: string, t: string)
    ensures EncodeHex(s) == EncodeHex(t) <==> s == t || (s == "" && t == "\0") || (s == "\0" && t == "")
  {
    RoundTrip(s);
    RoundTrip(t);
    assert EncodeHex("") == "0x00" == EncodeHex("\0") by {
      assert Encode("\0") == [0];
      assert OfBytes([0]) == "00";
    }
  }

  // ---- the text ----

  lemma DigitText(n: int)
    requires 0 <= n < 16
    ensures Digit(n, false) == "0123456789abcdef"[n] && Digit(n, true) == "0123456789ABCDEF"[n]
  {
  }

  lemma {:induction false} BytesLength(b: seq<Byte>)
    ensures |OfBytes(b)| == 2 * |b|
  {
    if b != [] {
      BytesLength(b[1..]);
    }
  }

  lemma {:induction false} BytesText(b: seq<Byte>, i: nat)
    requires i < |b|
    ensures |OfBytes(b)| == 2 * |b|
    ensures OfBytes(b)[2 * i] == "0123456789abcdef"[b[i] / 16] && OfBytes(b)[2 * i + 1] == "0123456789abcdef"[b[i] % 16]
  {
    BytesLength(b);
    BytesLength(b[1..]);
    DigitText(b[0] / 16);
    DigitText(b[0] % 16);
    assert OfBytes(b) == [Digit(b[0] / 16, false), Digit(b[0] % 16, false)] + OfBytes(b[1..]);
    hide OfBytes, Digit;
    if i > 0 {
      BytesText(b[1..], i - 1);
      assert b[1..][i - 1] == b[i];
      Shifted([Digit(b[0] / 16, false), Digit(b[0] % 16, false)], OfBytes(b[1..]), 2 * (i - 1));
    }
  }

  lemma Shifted(head: string, tail: string, k: nat)
    requires |head| == 2 && k + 1 < |tail|
    ensures (head + tail)[k + 2] == tail[k] && (head + tail)[k + 3] == tail[k + 1]
  {
  }

  /** The text is 0x and, in lower case, two digits for each byte of UTF-8; for no data it is one null byte. */
  lemma HexText(s: string, i: nat)
    requires i < |Encode(s)|
    ensures var text, bytes := EncodeHex(s), Encode(s);
            && |text| == 2 + 2 * |bytes| && text[0] == '0' && text[1] == 'x'
            && text[2 + 2 * i] == "0123456789abcdef"[bytes[i] / 16] && text[3 + 2 * i] == "0123456789abcdef"[bytes[i] % 16]
    ensures EncodeHex("") == "0x00"
  {
    BytesText(Encode(s), i);
  }

  lemma {:induction false} NoPrefix(s: string)
    requires 'x' !in s
    ensures StripPrefix(s) == s
  {
    if |s| >= 2 {
      assert s[1] in s && forall c :: c in s[1..] ==> c in s;
      NoPrefix(s[1..]);
      assert [s[0]] + s[1..] == s;
    }
  }

  lemma {:induction false} NoX(b: seq<Byte>)
    ensures 'x' !in OfBytes(b)
  {
    if b != [] {
      NoX(b[1..]);
      DigitText(b[0] / 16);
      DigitText(b[0] % 16);
    }
  }

  /** Hex bytes are decoded as UTF-8 with the prefix and without it; a single null byte is no data. */
  lemma DecodeOfBytes(b: seq<Byte>)
    ensures DecodeHex("0x" + OfBytes(b)) == DecodeHex(OfBytes(b)) == if Decode(b) == "\0" then "" else Decode(b)
  {
    NoX(b);
    NoPrefix(OfBytes(b));
    ToBytesOfBytes(b);
    assert ("0x" + OfBytes(b))[2..] == OfBytes(b);
    hide OfBytes, ToBytes, Decode;
  }
}
