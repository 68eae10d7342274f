/**
 * URLSearchParams: the application/x-www-form-urlencoded serializer and parser, sections 5.1 and 5.2 of
 * the WHATWG URL Standard.
 */
module FormCoding {
  import opened Wrappers
  import opened Utf8
  import opened Text
  import Hex
  import UriCoding

  type Param = (string, string)

  predicate Kept(b: Byte) {
    UriCoding.Alphanumeric(b as char) || b as char in "*-._"
  }

  function SerializeByte(b: Byte): string {
    if b == 0x20 then "+" else if b < 0x80 && Kept(b) then [b as char] else UriCoding.EscapeByte(b)
  }

  function SerializeBytes(bytes: seq<Byte>): string {
    if bytes == [] then "" else SerializeByte(bytes[0]) + SerializeBytes(bytes[1..])
  }

  function SerializePair(p: Param): string {
    SerializeBytes(Encode(p.0)) + "=" + SerializeBytes(Encode(p.1))
  }

  function SerializePairs(params: seq<Param>): seq<string> {
    if params == [] then [] else [SerializePair(params[0])] + SerializePairs(params[1..])
  }

  /** new URLSearchParams(record).toString() */
  function Serialize(params: seq<Param>): string {
    Join(SerializePairs(params), '&')
  }

  function PlusToSpace(s: string): string {
    if s == "" then "" else [if s[0] == '+' then ' ' else s[0]] + PlusToSpace(s[1..])
  }

  /** Percent-decoding never fails: a '%' that starts no escape stands for itself. */
  function PercentDecode(bytes: seq<Byte>): seq<Byte> {
    if bytes == [] then []
    else if |bytes| >= 3 && bytes[0] == 0x25 && bytes[1] < 0x80 && bytes[2] < 0x80
         && Hex.Pair(bytes[1] as char, bytes[2] as char).Some?
    then [Hex.Pair(bytes[1] as char, bytes[2] as char).value] + PercentDecode(bytes[3..])
    else [bytes[0]] + PercentDecode(bytes[1..])
  }

  function ParseText(s: string): string {
    Decode(PercentDecode(Encode(PlusToSpace(s))))
  }

  /** Name and value, split at the first '='; without one the whole is the name. */
  function CutAtEquals(s: string): Param {
    if s == "" then ("", "")
    else if s[0] == '=' then ("", s[1..])
    else var (name, value) := CutAtEquals(s[1..]); ([s[0]] + name, value)
  }

  function ParsePairs(parts: seq<string>): seq<Param> {
    if parts == [] then []
    else if parts[0] == "" then ParsePairs(parts[1..])
    else
      var (name, value) := CutAtEquals(parts[0]);
      [(ParseText(name), ParseText(value))] + ParsePairs(parts[1..])
  }

  /** new URLSearchParams(data), which ignores one leading '?'. */
  function Parse(data: string): seq<Param> {
    ParsePairs(Split(if data != "" && data[0] == '?' then data[1..] else data, '&'))
  }

  /** URLSearchParams.get: the first value of the name. */
  function Get(params: seq<Param>, name: string): Option<string> {
    if params == [] then None
    else if params[0].0 == name then Some(params[0].1)
    else Get(params[1..], name)
  }

  lemma GetOfThree(a: Param, b: Param, c: Param, name: string)
    ensures Get([a, b, c], name)
         == if a.0 == name then Some(a.1) else if b.0 == name then Some(b.1) else if c.0 == name then Some(c.1) else None
  {
    var all, two, one := [a, b, c], [b, c], [c];
    assert all[1..] == two && two[1..] == one && one[1..] == [];
    assert Get(one, name) == if c.0 == name then Some(c.1) else None;
    assert Get(two, name) == if b.0 == name then Some(b.1) else Get(one, name);
  }

  // ---- text ----

  predicate FormChar(c: char) {
    UriCoding.Alphanumeric(c) || c in "*-._%+"
  }

  lemma {:induction false} SerializedIsForm(bytes: seq<Byte>)
    ensures forall c :: c in SerializeBytes(bytes) ==> FormChar(c)
  {
    if bytes != [] {
      SerializedIsForm(bytes[1..]);
      assert forall c :: c in SerializeByte(bytes[0]) ==> FormChar(c);
    }
  }

  lemma {:induction false} PlusToSpaceConcat(s: string, t: string)
    ensures PlusToSpace(s + t) == PlusToSpace(s) + PlusToSpace(t)
  {
    if s == "" {
      assert s + t == t;
    } else {
      assert (s + t)[1..] == s[1..] + t;
      PlusToSpaceConcat(s[1..], t);
    }
  }

  lemma {:induction false} EncodeConcat(s: string, t: string)
    ensures Encode(s + t) == Encode(s) + Encode(t)
  {
    if s == "" {
      assert s + t == t;
    } else {
      assert (s + t)[1..] == s[1..] + t;
      EncodeConcat(s[1..], t);
    }
  }

  lemma OneByte(b: Byte, rest: seq<Byte>)
    ensures PercentDecode(Encode(PlusToSpace(SerializeByte(b))) + rest) == [b] + PercentDecode(rest)
  {
    var text := SerializeByte(b);
    if |text| == 1 {
      assert PlusToSpace(text) == [if b == 0x20 then ' ' else b as char] by {
        assert text[1..] == "" && PlusToSpace("") == "";
      }
      var c := PlusToSpace(text)[0];
      assert Encode([c]) == EncodeChar(c) + Encode([c][1..]) == [b];
      assert ([b] + rest)[1..] == rest;
      assert b != 0x25;
    } else {
      var h, l := Hex.Digit(b / 16, true), Hex.Digit(b % 16, true);
      assert text == ['%', h, l];
      Hex.ValueOfDigit(b / 16, true);
      Hex.ValueOfDigit(b % 16, true);
      ThreeAscii('%', h, l);
      var bytes := [0x25 as Byte, h as int, l as int] + rest;
      assert bytes[3..] == rest;
    }
  }

  lemma ThreeAscii(a: char, b: char, c: char)
    requires a as int < 0x80 && b as int < 0x80 && c as int < 0x80 && a != '+' && b != '+' && c != '+'
    ensures Encode(PlusToSpace([a, b, c])) == [a as int, b as int, c as int]
  {
    assert [a, b, c][1..] == [b, c] && [b, c][1..] == [c] && [c][1..] == [];
    assert PlusToSpace([c]) == [c] && PlusToSpace([b, c]) == [b, c] && PlusToSpace([a, b, c]) == [a, b, c];
    assert Encode([c]) == [c as int] && Encode([b, c]) == [b as int, c as int];
  }

  lemma {:induction false} PercentDecodeSerialized(bytes: seq<Byte>)
    ensures PercentDecode(Encode(PlusToSpace(SerializeBytes(bytes)))) == bytes
  {
    if bytes != [] {
      var head, tail := SerializeByte(bytes[0]), SerializeBytes(bytes[1..]);
      PlusToSpaceConcat(head, tail);
      EncodeConcat(PlusToSpace(head), PlusToSpace(tail));
      OneByte(bytes[0], Encode(PlusToSpace(tail)));
      PercentDecodeSerialized(bytes[1..]);
    }
  }

  lemma ParseSerializedText(s: string)
    ensures ParseText(SerializeBytes(Encode(s))) == s
  {
    PercentDecodeSerialized(Encode(s));
    DecodeEncode(s);
  }

  // ---- pairs ----

  lemma {:induction false} CutAtFirstEquals(name: string, value: string)
    requires '=' !in name
    ensures CutAtEquals(name + "=" + value) == (name, value)
  {
    var s := name + "=" + value;
    if name == "" {
      assert s[1..] == value;
    } else {
      assert s[1..] == name[1..] + "=" + value;
      CutAtFirstEquals(name[1..], value);
      assert [name[0]] + name[1..] == name;
    }
  }

  lemma ParseSerializedPair(p: Param)
    ensures var (name, value) := CutAtEquals(SerializePair(p)); (ParseText(name), ParseText(value)) == p
    ensures SerializePair(p) != ""
  {
    SerializedIsForm(Encode(p.0));
    CutAtFirstEquals(SerializeBytes(Encode(p.0)), SerializeBytes(Encode(p.1)));
    ParseSerializedText(p.0);
    ParseSerializedText(p.1);
  }

  lemma {:induction false} ParseSerializedPairs(params: seq<Param>)
    ensures ParsePairs(SerializePairs(params)) == params
  {
    if params != [] {
      ParseSerializedPair(params[0]);
      ParseSerializedPairs(params[1..]);
      hide SerializePair, CutAtEquals, ParseText;
      assert SerializePairs(params)[1..] == SerializePairs(params[1..]);
      assert [params[0]] + params[1..] == params;
    }
  }

  lemma PairHasNoSeparators(p: Param)
    ensures forall c :: c in SerializePair(p) ==> FormChar(c) || c == '='
    ensures SerializePair(p) != "" && SerializePair(p)[0] != '?'
  {
    SerializedIsForm(Encode(p.0));
    SerializedIsForm(Encode(p.1));
    assert SerializePair(p)[0] in SerializePair(p);
  }

  lemma {:induction false} JoinHead(parts: seq<string>, sep: char)
    requires parts != [] && parts[0] != ""
    ensures Join(parts, sep) != "" && Join(parts, sep)[0] == parts[0][0]
  {
  }

  lemma {:induction false} PartsAreFree(params: seq<Param>, c: char)
    requires !FormChar(c) && c != '='
    ensures forall i :: 0 <= i < |SerializePairs(params)| ==> c !in SerializePairs(params)[i]
  {
    if params != [] {
      PairHasNoSeparators(params[0]);
      PartsAreFree(params[1..], c);
      hide SerializePair;
    }
  }

  /** Parsing undoes serializing, for every list of names and values, with a question mark in front or without. */
  lemma ParseSerialize(params: seq<Param>)
    ensures Parse(Serialize(params)) == params
    ensures Parse("?" + Serialize(params)) == params
  {
    assert ("?" + Serialize(params))[1..] == Serialize(params);
    if params == [] {
      assert Split("", '&') == [""] && [""][1..] == [];
    } else {
      ParseSerializedPairs(params);
      PartsAreFree(params, '&');
      SplitJoin(SerializePairs(params), '&');
      PairHasNoSeparators(params[0]);
      JoinHead(SerializePairs(params), '&');
    }
  }

  lemma {:induction false} JoinedChars(parts: seq<string>, sep: char, c: char)
    requires forall i :: 0 <= i < |parts| ==> c !in parts[i]
    requires c != sep
    ensures c !in Join(parts, sep)
  {
    if |parts| > 1 {
      JoinedChars(parts[1..], sep, c);
    }
  }

  /** A serialized list has no ':'. */
  lemma SerializedHasNoColon(params: seq<Param>)
    ensures ':' !in Serialize(params)
  {
    PartsAreFree(params, ':');
    JoinedChars(SerializePairs(params), '&', ':');
  }

  // ---- the text ----

  /** A name or value in the text. */
  function FormText(s: string): string {
    SerializeBytes(Encode(s))
  }

  predicate Stays(c: char) {
    'A' <= c <= 'Z' || 'a' <= c <= 'z' || '0' <= c <= '9' || c in "*-._"
  }

  lemma KeptStaysOne(c: char, rest: seq<Byte>)
    requires Stays(c)
    ensures SerializeBytes(EncodeChar(c) + rest) == [c] + SerializeBytes(rest)
  {
    assert EncodeChar(c) == [c as int] && SerializeByte(c as int) == [c];
    assert ([c as int] + rest)[1..] == rest;
  }

  /** Letters, digits and four more characters stay as they are. */
  lemma {:induction false} KeptStays(s: string)
    requires forall c :: c in s ==> Stays(c)
    ensures FormText(s) == s
  {
    hide Stays, SerializeBytes, EncodeChar;
    if s != "" {
      KeptStays(s[1..]);
      assert s[0] in s;
      KeptStaysOne(s[0], Encode(s[1..]));
      assert [s[0]] + s[1..] == s;
    } else {
      NoText();
    }
  }

  lemma NoText()
    ensures FormText("") == ""
  {
  }

  /** A space becomes a plus sign, and any other character that is not kept an escape for each of its bytes. */
  lemma OtherText(c: char)
    requires !Stays(c)
    ensures FormText([c]) == if c == ' ' then "+" else UriCoding.EscapeBytes(EncodeChar(c))
  {
    assert [c][1..] == "" && Encode([c]) == EncodeChar(c) + Encode("") == EncodeChar(c);
    if c != ' ' {
      assert forall i :: 0 <= i < |EncodeChar(c)| ==> EncodeChar(c)[i] >= 0x80 || EncodeChar(c)[i] == c as int;
      EscapedAlike(EncodeChar(c));
    } else {
      assert EncodeChar(c) == [0x20];
      assert SerializeBytes([0x20]) == SerializeByte(0x20) + SerializeBytes([0x20][1..]);
    }
  }

  lemma {:induction false} EscapedAlike(bytes: seq<Byte>)
    requires forall i :: 0 <= i < |bytes| ==> bytes[i] != 0x20 && (bytes[i] < 0x80 ==> !Kept(bytes[i]))
    ensures SerializeBytes(bytes) == UriCoding.EscapeBytes(bytes)
  {
    if bytes != [] {
      EscapedAlike(bytes[1..]);
    }
  }

  lemma {:induction false} TextConcat(s: string, t: string)
    ensures FormText(s + t) == FormText(s) + FormText(t)
  {
    EncodeConcat(s, t);
    BytesConcat(Encode(s), Encode(t));
  }

  lemma {:induction false} BytesConcat(a: seq<Byte>, b: seq<Byte>)
    ensures SerializeBytes(a + b) == SerializeBytes(a) + SerializeBytes(b)
  {
    if a == [] {
      assert a + b == b;
    } else {
      assert (a + b)[1..] == a[1..] + b;
      BytesConcat(a[1..], b);
    }
  }

  /** Pairs are written name, equals sign, value, with ampersands between them. */
  lemma ThreePairs(a: Param, b: Param, c: Param)
    ensures Serialize([a, b, c])
         == FormText(a.0) + "=" + FormText(a.1) + "&" + (FormText(b.0) + "=" + FormText(b.1) + "&" + (FormText(c.0) + "=" + FormText(c.1)))
  {
    var all, two, one := [a, b, c], [b, c], [c];
    assert all[1..] == two && two[1..] == one && one[1..] == [];
    hide FormText;
    assert SerializePairs(one) == [SerializePair(c)];
    assert SerializePairs(two) == [SerializePair(b), SerializePair(c)];
    assert SerializePairs(all) == [SerializePair(a), SerializePair(b), SerializePair(c)];
    JoinThree(SerializePair(a), SerializePair(b), SerializePair(c), '&');
    PairText(a);
    PairText(b);
    PairText(c);
  }

  lemma PairText(p: Param)
    ensures SerializePair(p) == FormText(p.0) + "=" + FormText(p.1)
  {
  }
}
