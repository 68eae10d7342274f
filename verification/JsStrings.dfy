/**
 * JavaScript strings as they are: sequences of UTF-16 code units in which a surrogate may stand alone
 * (section 6.1.4 of ECMA-262). The other modules work on Dafny strings, which are the well-formed ones;
 * this one says what the codecs do with the rest.
 */
module JsStrings {
  import opened Wrappers
  import Hex
  import UriCoding
  import Utf8

  type Unit = x: int | 0 <= x < 0x10000
  type JsString = seq<Unit>

  predicate Leading(u: int) {
    0xD800 <= u < 0xDC00
  }

  predicate Trailing(u: int) {
    0xDC00 <= u < 0xE000
  }

  predicate Paired(js: JsString, i: nat)
    requires i < |js|
  {
    && (Leading(js[i]) ==> i + 1 < |js| && Trailing(js[i + 1]))
    && (Trailing(js[i]) ==> i > 0 && Leading(js[i - 1]))
  }

  /** No surrogate without its partner. */
  ghost predicate WellFormed(js: JsString) {
    forall i :: 0 <= i < |js| ==> Paired(js, i)
  }

  function UnitsOf(c: char): (js: JsString)
    ensures 1 <= |js| <= 2
  {
    var v := c as int;
    if v < 0x10000 then [v] else [0xD800 + (v - 0x10000) / 1024, 0xDC00 + (v - 0x10000) % 1024]
  }

  function OfString(s: string): JsString {
    if s == "" then [] else UnitsOf(s[0]) + OfString(s[1..])
  }

  /** The character at the front, None for a surrogate alone, and how many units it takes. */
  function Front(js: JsString): (r: (Option<char>, nat))
    requires js != []
    ensures 1 <= r.1 <= |js|
  {
    if Leading(js[0]) then
      if |js| > 1 && Trailing(js[1]) then
        (Some((0x10000 + (js[0] as int - 0xD800) * 1024 + (js[1] as int - 0xDC00)) as char), 2)
      else (None, 1)
    else if Trailing(js[0]) then (None, 1)
    else (Some(js[0] as char), 1)
  }

  /** The characters, with the replacement character for each surrogate alone, as Buffer.from reads them. */
  function ToString(js: JsString): string {
    if js == [] then ""
    else
      var (c, n) := Front(js);
      [if c.Some? then c.value else Utf8.REPLACEMENT] + ToString(js[n..])
  }

  function EncodeHex(js: JsString): string {
    Hex.EncodeHex(ToString(js))
  }

  function DecodeHex(data: string): JsString {
    OfString(Hex.DecodeHex(data))
  }

  /** None is the URIError thrown on meeting a surrogate alone. */
  function EncodeURIComponent(js: JsString): Option<string> {
    if js == [] then Some("")
    else
      var (c, n) := Front(js);
      var rest := EncodeURIComponent(js[n..]);
      if c.None? || rest.None? then None
      else Some((if UriCoding.Unescaped(c.value) then [c.value] else UriCoding.EscapeBytes(Utf8.EncodeChar(c.value))) + rest.value)
  }

  lemma FrontOfUnits(c: char, rest: JsString)
    ensures Front(UnitsOf(c) + rest) == (Some(c), |UnitsOf(c)|)
  {
    var v := c as int;
    if v >= 0x10000 {
      assert (v - 0x10000) / 1024 * 1024 + (v - 0x10000) % 1024 == v - 0x10000;
    }
  }

  lemma UnitsOfFront(js: JsString)
    requires js != [] && Front(js).0.Some?
    ensures UnitsOf(Front(js).0.value) == js[..Front(js).1]
  {
    if Leading(js[0]) {
      var x, y := js[0] as int - 0xD800, js[1] as int - 0xDC00;
      assert (x * 1024 + y) / 1024 == x && (x * 1024 + y) % 1024 == y;
    }
  }

  /** Well-formedness read from the front. */
  lemma WellFormedFront(js: JsString)
    requires js != []
    ensures WellFormed(js) <==> Front(js).0.Some? && WellFormed(js[Front(js).1..])
  {
    var n := Front(js).1;
    var rest := js[n..];
    if WellFormed(js) {
      assert Paired(js, 0);
      forall i | 0 <= i < |rest| ensures Paired(rest, i) {
        assert Paired(js, i + n);
      }
    }
    if Front(js).0.Some? && WellFormed(rest) {
      forall i | 0 <= i < |js| ensures Paired(js, i) {
        if i >= n {
          assert Paired(rest, i - n);
        }
      }
    }
  }

  lemma {:induction false} ToStringOfString(s: string)
    ensures ToString(OfString(s)) == s
  {
    if s != "" {
      FrontOfUnits(s[0], OfString(s[1..]));
      assert OfString(s)[|UnitsOf(s[0])|..] == OfString(s[1..]);
      ToStringOfString(s[1..]);
    }
  }

  /** A JavaScript string survives conversion to characters exactly when it is well formed. */
  lemma {:induction false} SurvivesIffWellFormed(js: JsString)
    ensures OfString(ToString(js)) == js <==> WellFormed(js)
  {
    if js != [] {
      var (c, n) := Front(js);
      WellFormedFront(js);
      SurvivesIffWellFormed(js[n..]);
      var rest := OfString(ToString(js[n..]));
      if c.Some? {
        UnitsOfFront(js);
        assert js == js[..n] + js[n..];
        assert (UnitsOf(c.value) + rest)[n..] == rest;
        assert ToString(js)[1..] == ToString(js[n..]);
      } else {
        assert OfString(ToString(js))[0] == 0xFFFD;
      }
    }
  }

  /** decodeHex undoes encodeHex on every well-formed string but the single null character, and on no other. */
  lemma HexRoundTripIff(js: JsString)
    ensures DecodeHex(EncodeHex(js)) == js <==> WellFormed(js) && js != [0]
  {
    var s := ToString(js);
    Hex.RoundTrip(s);
    SurvivesIffWellFormed(js);
    assert OfString("") == [];
    assert ToString([0]) == "\0" by {
      assert Front([0]) == (Some('\0'), 1) && [0][1..] == [];
    }
    if s == "\0" {
      assert OfString(s) == [0] + OfString(s[1..]) == [0];
      assert js != [];
      ToStringOfString(s);
    }
  }

  /** encodeURIComponent throws exactly on ill-formed strings, and otherwise decoding undoes it. */
  lemma {:induction false} UriRoundTripIff(js: JsString)
    ensures EncodeURIComponent(js).Some? <==> WellFormed(js)
    ensures WellFormed(js) ==>
      && EncodeURIComponent(js).value == UriCoding.EncodeURIComponent(ToString(js))
      && UriCoding.DecodeURIComponent(EncodeURIComponent(js).value) == Some(ToString(js))
      && OfString(ToString(js)) == js
  {
    if js != [] {
      WellFormedFront(js);
      UriRoundTripIff(js[Front(js).1..]);
      assert ToString(js)[1..] == ToString(js[Front(js).1..]);
    }
    UriCoding.DecodeEncodeURI(ToString(js));
    SurvivesIffWellFormed(js);
  }
}
