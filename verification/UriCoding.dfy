/** encodeURIComponent and decodeURIComponent, section 19.2.6 of ECMA-262. */
module UriCoding {
  import opened Wrappers
  import opened Utf8
  import Hex

  predicate Alphanumeric(c: char) {
    'A' <= c <= 'Z' || 'a' <= c <= 'z' || '0' <= c <= '9'
  }

  predicate Unescaped(c: char) {
    Alphanumeric(c) || c in "-_.!~*'()"
  }

  function EscapeByte(b: Byte): string {
    ['%', Hex.Digit(b / 16, true), Hex.Digit(b % 16, true)]
  }

  function EscapeBytes(bytes: seq<Byte>): string {
    if bytes == [] then "" else EscapeByte(bytes[0]) + EscapeBytes(bytes[1..])
  }

  function EncodeURIComponent(s: string): string {
    if s == "" then ""
    else (if Unescaped(s[0]) then [s[0]] else EscapeBytes(EncodeChar(s[0]))) + EncodeURIComponent(s[1..])
  }

  /** The byte escaped at the front of the text, if one is. */
  function EscapedByte(s: string): Option<Byte> {
    if |s| >= 3 && s[0] == '%' then Hex.Pair(s[1], s[2]) else None
  }

  /** Exactly n escaped bytes at the front of the text. */
  function EscapedBytes(s: string, n: nat): (r: Option<seq<Byte>>)
    ensures r.Some? ==> |r.value| == n && |s| >= 3 * n
  {
    if n == 0 then Some([])
    else
      var first := EscapedByte(s);
      if first.None? then None
      else
        var rest := EscapedBytes(s[3..], n - 1);
        if rest.None? then None else Some([first.value] + rest.value)
  }

  /** How many bytes a character has whose first byte this is; zero when no character starts with it. */
  function SequenceLength(b: Byte): nat {
    if b < 0x80 then 1 else if b < 0xC0 then 0 else if b < 0xE0 then 2 else if b < 0xF0 then 3
    else if b < 0xF8 then 4 else 0
  }

  /** The character escaped at the front of the text and the number of escapes it takes. */
  function EscapedChar(s: string): (r: Option<(char, nat)>)
    ensures r.Some? ==> r.value.1 > 0 && 3 * r.value.1 <= |s|
  {
    var first := EscapedByte(s);
    if first.None? || SequenceLength(first.value) == 0 then None
    else
      var octets := EscapedBytes(s, SequenceLength(first.value));
      if octets.None? then None
      else
        var (c, n) := DecodeOne(octets.value);
        if c.Some? && n == |octets.value| then Some((c.value, n)) else None
  }

  /** None is the URIError thrown for a malformed sequence. */
  function DecodeURIComponent(s: string): Option<string> {
    if s == "" then Some("")
    else if s[0] == '%' then
      var escaped := EscapedChar(s);
      if escaped.None? then None
      else
        var rest := DecodeURIComponent(s[3 * escaped.value.1..]);
        if rest.None? then None else Some([escaped.value.0] + rest.value)
    else
      var rest := DecodeURIComponent(s[1..]);
      if rest.None? then None else Some([s[0]] + rest.value)
  }

  lemma EscapedByteOf(b: Byte, rest: string)
    ensures EscapedByte(EscapeByte(b) + rest) == Some(b)
  {
    Hex.ValueOfDigit(b / 16, true);
    Hex.ValueOfDigit(b % 16, true);
  }

  lemma {:induction false} EscapedBytesOf(bytes: seq<Byte>, rest: string)
    ensures EscapedBytes(EscapeBytes(bytes) + rest, |bytes|) == Some(bytes)
    ensures |EscapeBytes(bytes)| == 3 * |bytes|
  {
    if bytes != [] {
      var tail := EscapeBytes(bytes[1..]) + rest;
      assert EscapeBytes(bytes) + rest == EscapeByte(bytes[0]) + tail;
      EscapedByteOf(bytes[0], tail);
      EscapedBytesOf(bytes[1..], rest);
      hide EscapeBytes, EscapeByte, EscapedByte;
      EscapedBytesStep(EscapeBytes(bytes) + rest, bytes, tail);
    }
  }

  lemma EscapedBytesStep(text: string, bytes: seq<Byte>, tail: string)
    requires bytes != [] && |text| >= 3 && text[3..] == tail
    requires EscapedByte(text) == Some(bytes[0]) && EscapedBytes(tail, |bytes| - 1) == Some(bytes[1..])
    ensures EscapedBytes(text, |bytes|) == Some(bytes)
  {
    hide EscapedByte;
    assert [bytes[0]] + bytes[1..] == bytes;
  }

  lemma EscapedCharOf(c: char, rest: string)
    ensures EscapedChar(EscapeBytes(EncodeChar(c)) + rest) == Some((c, |EncodeChar(c)|))
    ensures |EscapeBytes(EncodeChar(c))| == 3 * |EncodeChar(c)|
    ensures EscapeBytes(EncodeChar(c))[0] == '%'
  {
    var bytes := EncodeChar(c);
    EscapedBytesOf(bytes, rest);
    assert EscapeBytes(bytes) + rest == EscapeByte(bytes[0]) + (EscapeBytes(bytes[1..]) + rest);
    EscapedByteOf(bytes[0], EscapeBytes(bytes[1..]) + rest);
    assert SequenceLength(bytes[0]) == |bytes|;
    DecodeHead(c, []);
    assert bytes + [] == bytes;
  }

  lemma {:induction false} DecodeEncodeURI(s: string)
    ensures DecodeURIComponent(EncodeURIComponent(s)) == Some(s)
  {
    if s != "" {
      DecodeEncodeURI(s[1..]);
      var head := if Unescaped(s[0]) then [s[0]] else EscapeBytes(EncodeChar(s[0]));
      assert EncodeURIComponent(s) == head + EncodeURIComponent(s[1..]);
      EscapedCharOf(s[0], EncodeURIComponent(s[1..]));
      assert EncodeURIComponent(s)[|head|..] == EncodeURIComponent(s[1..]);
      assert [s[0]] + s[1..] == s;
    }
  }

  /** Characters that stand for themselves or take part in escapes. */
  predicate Plain(c: char) {
    Unescaped(c) || c == '%'
  }

  lemma {:induction false} EscapesArePlain(bytes: seq<Byte>)
    ensures forall c :: c in EscapeBytes(bytes) ==> Alphanumeric(c) || c == '%'
  {
    if bytes != [] {
      EscapesArePlain(bytes[1..]);
      assert forall c :: c in EscapeByte(bytes[0]) ==> Alphanumeric(c) || c == '%';
    }
  }

  /** The encoding holds only unescaped characters and escapes; in particular no ':', '&', '=' or '/'. */
  lemma {:induction false} EncodedIsPlain(s: string)
    ensures forall c :: c in EncodeURIComponent(s) ==> Plain(c)
  {
    if s != "" {
      EncodedIsPlain(s[1..]);
      EscapesArePlain(EncodeChar(s[0]));
    }
  }

  // ---- the text ----

  /** What needs no escape stays as it is. */
  lemma {:induction false} UnescapedStays(s: string)
    requires forall c :: c in s ==> 'A' <= c <= 'Z' || 'a' <= c <= 'z' || '0' <= c <= '9' || c in "-_.!~*'()"
    ensures EncodeURIComponent(s) == s
  {
    if s != "" {
      assert s[0] in s && forall c :: c in s[1..] ==> c in s;
      UnescapedStays(s[1..]);
      assert [s[0]] + s[1..] == s;
    }
  }

  /** Any other character becomes a percent sign and two upper-case digits for each of its bytes. */
  lemma EscapedText(c: char, i: nat)
    requires i < |EncodeChar(c)|
    requires !('A' <= c <= 'Z' || 'a' <= c <= 'z' || '0' <= c <= '9' || c in "-_.!~*'()")
    ensures var text, bytes := EncodeURIComponent([c]), EncodeChar(c);
            && |text| == 3 * |bytes| && text[3 * i] == '%'
            && text[3 * i + 1] == "0123456789ABCDEF"[bytes[i] / 16] && text[3 * i + 2] == "0123456789ABCDEF"[bytes[i] % 16]
  {
    BytesText(EncodeChar(c), i);
    assert [c][1..] == "";
    assert EncodeURIComponent([c]) == EscapeBytes(EncodeChar(c)) + EncodeURIComponent("");
  }

  lemma {:induction false} BytesText(bytes: seq<Byte>, i: nat)
    requires i < |bytes|
    ensures var text := EscapeBytes(bytes);
            && |text| == 3 * |bytes| && text[3 * i] == '%'
            && text[3 * i + 1] == "0123456789ABCDEF"[bytes[i] / 16] && text[3 * i + 2] == "0123456789ABCDEF"[bytes[i] % 16]
  {
    var tail := EscapeBytes(bytes[1..]);
    EscapeLength(bytes[1..]);
    ByteText(bytes[0]);
    assert EscapeBytes(bytes) == EscapeByte(bytes[0]) + tail;
    hide EscapeBytes, EscapeByte;
    if i > 0 {
      BytesText(bytes[1..], i - 1);
      assert bytes[1..][i - 1] == bytes[i];
      Shifted(EscapeByte(bytes[0]), tail, 3 * (i - 1));
    }
  }

  lemma Shifted(head: string, tail: string, k: nat)
    requires |head| == 3 && k + 2 < |tail|
    ensures (head + tail)[k + 3] == tail[k] && (head + tail)[k + 4] == tail[k + 1] && (head + tail)[k + 5] == tail[k + 2]
  {
  }

  lemma {:induction false} EscapeLength(bytes: seq<Byte>)
    ensures |EscapeBytes(bytes)| == 3 * |bytes|
  {
    if bytes != [] {
      EscapeLength(bytes[1..]);
    }
  }

  lemma ByteText(b: Byte)
    ensures EscapeByte(b) == ['%', "0123456789ABCDEF"[b / 16], "0123456789ABCDEF"[b % 16]]
  {
    Hex.DigitText(b / 16);
    Hex.DigitText(b % 16);
  }

  /** Characters are encoded one by one. */
  lemma {:induction false} EncodeConcat(s: string, t: string)
    ensures EncodeURIComponent(s + t) == EncodeURIComponent(s) + EncodeURIComponent(t)
  {
    if s == "" {
      assert s + t == t;
    } else {
      assert (s + t)[1..] == s[1..] + t;
      EncodeConcat(s[1..], t);
    }
  }

  // ---- what can be decoded ----

  /** Every percent sign starts an escape of two hex digits. */
  predicate WellEscaped(t: string) {
    if t == "" then true
    else if t[0] == '%' then |t| >= 3 && Hex.Pair(t[1], t[2]).Some? && WellEscaped(t[3..])
    else WellEscaped(t[1..])
  }

  /** The bytes of a text: those of its characters, and of its escapes the bytes they stand for. */
  function BytesOf(t: string): seq<Byte>
    requires WellEscaped(t)
  {
    if t == "" then []
    else if t[0] == '%' then [Hex.Pair(t[1], t[2]).value] + BytesOf(t[3..])
    else EncodeChar(t[0]) + BytesOf(t[1..])
  }

  lemma EncodeFront(c: char, rest: seq<Byte>, s: string)
    ensures EncodeChar(c) + rest == Encode(s) <==> s != "" && s[0] == c && rest == Encode(s[1..])
  {
    if s != "" {
      DecodeHead(c, rest);
      DecodeHead(s[0], Encode(s[1..]));
      if EncodeChar(c) + rest == Encode(s) {
        var n := |EncodeChar(c)|;
        assert rest == (EncodeChar(c) + rest)[n..];
        assert Encode(s[1..]) == Encode(s)[n..];
      }
    }
  }

  /** Escapes at the front are escapes of the text, and their bytes the first of its bytes. */
  lemma {:induction false} EscapesInFront(t: string, n: nat)
    requires EscapedBytes(t, n).Some?
    ensures WellEscaped(t) <==> WellEscaped(t[3 * n..])
    ensures WellEscaped(t) ==> BytesOf(t) == EscapedBytes(t, n).value + BytesOf(t[3 * n..])
  {
    if n == 0 {
      assert t[0..] == t;
    } else {
      EscapesInFront(t[3..], n - 1);
      OneEscapeInFront(t);
      assert t[3..][3 * (n - 1)..] == t[3 * n..];
      hide WellEscaped, BytesOf, EscapedByte;
    }
  }

  lemma OneEscapeInFront(t: string)
    requires EscapedByte(t).Some?
    ensures WellEscaped(t) <==> WellEscaped(t[3..])
    ensures WellEscaped(t) ==> BytesOf(t) == [EscapedByte(t).value] + BytesOf(t[3..])
  {
  }

  /** Continuation bytes come from escapes alone, since no character starts with one. */
  lemma {:induction false} ContinuationsAreEscapes(t: string, n: nat)
    requires WellEscaped(t) && n <= |BytesOf(t)| && forall i :: 0 <= i < n ==> Continuation(BytesOf(t)[i])
    ensures EscapedBytes(t, n) == Some(BytesOf(t)[..n])
  {
    if n > 0 {
      FirstIsEscape(t);
      var rest := BytesOf(t[3..]);
      assert BytesOf(t) == [Hex.Pair(t[1], t[2]).value] + rest;
      assert forall i :: 0 <= i < n - 1 ==> rest[i] == BytesOf(t)[i + 1];
      ContinuationsAreEscapes(t[3..], n - 1);
      assert BytesOf(t)[..n] == [BytesOf(t)[0]] + rest[..n - 1];
    }
  }

  lemma FirstIsEscape(t: string)
    requires WellEscaped(t) && BytesOf(t) != [] && Continuation(BytesOf(t)[0])
    ensures t != "" && t[0] == '%'
  {
    if t != "" {
      NoCharContinues(t[0]);
      hide EncodeChar, Continuation;
    }
  }

  lemma NoCharContinues(c: char)
    ensures !Continuation(EncodeChar(c)[0])
  {
    BytesOfChar(c);
  }

  lemma BytesOfCharContinue(c: char)
    ensures forall i :: 0 < i < |EncodeChar(c)| ==> Continuation(EncodeChar(c)[i])
    ensures SequenceLength(EncodeChar(c)[0]) == |EncodeChar(c)|
  {
    BytesOfChar(c);
  }

  /** An escape whose bytes go on as those of a character is that character. */
  lemma EscapedCharFound(t: string, c: char, rest: seq<Byte>)
    requires t != "" && t[0] == '%' && WellEscaped(t) && BytesOf(t) == EncodeChar(c) + rest
    ensures EscapedChar(t) == Some((c, |EncodeChar(c)|))
  {
    var n := |EncodeChar(c)|;
    BytesOfCharContinue(c);
    var tail := BytesOf(t[3..]);
    assert BytesOf(t) == [Hex.Pair(t[1], t[2]).value] + tail;
    assert forall i :: 0 <= i < n - 1 ==> tail[i] == BytesOf(t)[i + 1] == EncodeChar(c)[i + 1];
    ContinuationsAreEscapes(t[3..], n - 1);
    assert EncodeChar(c) == [EncodeChar(c)[0]] + tail[..n - 1];
    assert EscapedBytes(t, n) == Some(EncodeChar(c));
    DecodeHead(c, []);
    assert EncodeChar(c) + [] == EncodeChar(c);
  }

  lemma EscapedCharBytes(t: string)
    requires EscapedChar(t).Some?
    ensures EscapedBytes(t, EscapedChar(t).value.1) == Some(EncodeChar(EscapedChar(t).value.0))
  {
    var octets := EscapedBytes(t, SequenceLength(EscapedByte(t).value)).value;
    var (c, n) := DecodeOne(octets);
    DecodeOneIff(octets, c.value, n);
    assert octets[..n] == octets;
  }

  /** decodeURIComponent gives a text exactly when every percent sign starts an escape and the bytes are those of the text in UTF-8. */
  lemma {:induction false} DecodeIff(t: string, s: string)
    ensures DecodeURIComponent(t) == Some(s) <==> WellEscaped(t) && BytesOf(t) == Encode(s)
    decreases |t|
  {
    if t == "" {
      assert s != "" ==> Encode(s) != [];
    } else if t[0] != '%' {
      DecodeIffPlain(t, s);
    } else if EscapedChar(t).None? {
      if WellEscaped(t) && BytesOf(t) == Encode(s) {
        assert s != "";
        EscapedCharFound(t, s[0], Encode(s[1..]));
      }
    } else {
      DecodeIffEscaped(t, s);
    }
  }

  lemma {:induction false} DecodeIffPlain(t: string, s: string)
    requires t != "" && t[0] != '%'
    ensures DecodeURIComponent(t) == Some(s) <==> WellEscaped(t) && BytesOf(t) == Encode(s)
    decreases |t|, 0
  {
    if WellEscaped(t[1..]) {
      EncodeFront(t[0], BytesOf(t[1..]), s);
    }
    if s != "" {
      DecodeIff(t[1..], s[1..]);
      assert s == [s[0]] + s[1..];
    }
    hide Encode, BytesOf, WellEscaped;
    FrontDecoded(t[0], DecodeURIComponent(t[1..]), s);
  }

  lemma FrontDecoded(c: char, rest: Option<string>, s: string)
    ensures (if rest.None? then None else Some([c] + rest.value)) == Some(s) <==> s != "" && s[0] == c && rest == Some(s[1..])
  {
    if s != "" {
      assert s == [s[0]] + s[1..];
    }
    if rest.Some? {
      assert ([c] + rest.value)[1..] == rest.value;
    }
  }

  lemma {:induction false} DecodeIffEscaped(t: string, s: string)
    requires t != "" && t[0] == '%' && EscapedChar(t).Some?
    ensures DecodeURIComponent(t) == Some(s) <==> WellEscaped(t) && BytesOf(t) == Encode(s)
    decreases |t|, 0
  {
    var (c, n) := EscapedChar(t).value;
    EscapedCharBytes(t);
    EscapesInFront(t, n);
    if WellEscaped(t[3 * n..]) {
      EncodeFront(c, BytesOf(t[3 * n..]), s);
    }
    if s != "" {
      DecodeIff(t[3 * n..], s[1..]);
    }
    FrontDecoded(c, DecodeURIComponent(t[3 * n..]), s);
    hide Encode, BytesOf, WellEscaped, EscapedChar;
  }
}
