/** Sortable event identifiers: formatBlockchainEventId in src/tokens/tokens.listener.ts. */
module EventIds {
  import opened Wrappers
  import opened Text
  import Hex

  // ---- numbers and their digits ----

  /** The decimal digits of a number, as BigInt.prototype.toString(10) prints them. */
  function Digits(n: nat): (s: string)
    ensures s != ""
  {
    if n < 10 then [Hex.Digit(n, false)] else Digits(n / 10) + [Hex.Digit(n % 10, false)]
  }

  /** The number that digits spell, leading zeros or not. */
  function NumberOf(s: string, base: nat): Option<nat>
    requires 2 <= base <= 16
  {
    if s == "" then None
    else
      var digit := Hex.Value(s[|s| - 1]);
      if digit.None? || digit.value >= base then None
      else if |s| == 1 then Some(digit.value)
      else
        var high := NumberOf(s[..|s| - 1], base);
        if high.None? then None else Some(high.value * base + digit.value)
  }

  /** BigInt(text), section 7.1.14 of ECMA-262 without the trimming of white space; None is the SyntaxError. */
  function ParseBigInt(s: string): Option<int> {
    if s == "" then Some(0)
    else if |s| >= 2 && s[0] == '0' && (s[1] == 'x' || s[1] == 'X') then NumberOf(s[2..], 16)
    else if |s| >= 2 && s[0] == '0' && (s[1] == 'o' || s[1] == 'O') then NumberOf(s[2..], 8)
    else if |s| >= 2 && s[0] == '0' && (s[1] == 'b' || s[1] == 'B') then NumberOf(s[2..], 2)
    else if s[0] == '+' then NumberOf(s[1..], 10)
    else if s[0] == '-' then
      var n := NumberOf(s[1..], 10);
      if n.None? then None else Some(0 - n.value)
    else NumberOf(s, 10)
  }

  function BigIntText(n: int): string {
    if n < 0 then "-" + Digits(-n) else Digits(n)
  }

  predicate IsDigit(c: char) {
    '0' <= c <= '9'
  }

  lemma {:induction false} DigitsAreDigits(n: nat)
    ensures forall i :: 0 <= i < |Digits(n)| ==> IsDigit(Digits(n)[i])
  {
    if n >= 10 {
      DigitsAreDigits(n / 10);
    }
  }

  lemma {:induction false} NumberOfDigits(n: nat)
    ensures NumberOf(Digits(n), 10) == Some(n)
  {
    if n >= 10 {
      NumberOfDigits(n / 10);
      assert Digits(n)[..|Digits(n)| - 1] == Digits(n / 10);
    }
  }

  lemma PlainDecimal(n: nat)
    ensures ParseBigInt(Digits(n)) == Some(n)
  {
    NumberOfDigits(n);
    DigitsAreDigits(n);
    var s := Digits(n);
    assert IsDigit(s[0]);
    if |s| >= 2 {
      assert IsDigit(s[1]);
    }
  }

  /** BigInt reads back what BigInt.prototype.toString prints. */
  lemma ParsePrinted(n: int)
    ensures ParseBigInt(BigIntText(n)) == Some(n)
  {
    hide NumberOf, Digits;
    if n < 0 {
      NumberOfDigits(-n);
      assert ("-" + Digits(-n))[1..] == Digits(-n);
    } else {
      PlainDecimal(n);
    }
  }

  // ---- the identifier ----

  function Zeros(n: nat): (s: string)
    ensures |s| == n
    ensures forall i :: 0 <= i < n ==> s[i] == '0'
  {
    if n == 0 then "" else "0" + Zeros(n - 1)
  }

  function PadStart(s: string, width: nat): string {
    if |s| >= width then s else Zeros(width - |s|) + s
  }

  function FormatParts(block: string, transaction: string, log: string): string {
    Join([PadStart(block, 12), PadStart(transaction, 6), PadStart(log, 6)], '/')
  }

  /** None when BigInt throws on the transaction index. */
  function FormatEventId(blockNumber: Option<string>, transactionIndex: string, logIndex: Option<string>): Option<string> {
    var index := ParseBigInt(transactionIndex);
    if index.None? then None
    else
      Some(FormatParts(if blockNumber.Some? then blockNumber.value else "0", BigIntText(index.value),
                       if logIndex.Some? then logIndex.value else "0"))
  }

  /** Where a log stands on the chain. */
  datatype Position = Position(block: nat, transaction: nat, log: nat)

  function EventId(p: Position): string {
    FormatParts(Digits(p.block), Digits(p.transaction), Digits(p.log))
  }

  /** Decimal block and log numbers and any text of the transaction index give the identifier of the position. */
  lemma FormatIsEventId(p: Position, transactionIndex: string)
    requires ParseBigInt(transactionIndex) == Some(p.transaction)
    ensures FormatEventId(Some(Digits(p.block)), transactionIndex, Some(Digits(p.log))) == Some(EventId(p))
    ensures p.block == 0 ==> FormatEventId(None, transactionIndex, Some(Digits(p.log))) == Some(EventId(p))
    ensures p.log == 0 ==> FormatEventId(Some(Digits(p.block)), transactionIndex, None) == Some(EventId(p))
  {
    assert Digits(0) == "0";
  }

  lemma {:induction false} AllZeros(k: nat)
    requires k > 0
    ensures NumberOf(Zeros(k), 10) == Some(0)
  {
    if k > 1 {
      AllZeros(k - 1);
      assert Zeros(k)[..k - 1] == Zeros(k - 1);
    }
  }

  lemma {:induction false} NumberOfZeros(k: nat, s: string)
    requires NumberOf(s, 10).Some?
    ensures NumberOf(Zeros(k) + s, 10) == NumberOf(s, 10)
    decreases |s|
  {
    var padded := Zeros(k) + s;
    if |s| > 1 {
      NumberOfZeros(k, s[..|s| - 1]);
      assert padded[..|padded| - 1] == Zeros(k) + s[..|s| - 1];
    } else if k > 0 {
      assert padded[..|padded| - 1] == Zeros(k);
      AllZeros(k);
    } else {
      assert padded == s;
    }
  }

  lemma PaddedNumber(n: nat, width: nat)
    ensures NumberOf(PadStart(Digits(n), width), 10) == Some(n)
    ensures '/' !in PadStart(Digits(n), width)
  {
    hide NumberOf, Digits, Zeros;
    var s := Digits(n);
    NumberOfDigits(n);
    if |s| < width {
      NumberOfZeros(width - |s|, s);
    }
    NoSlash(n, width);
    hide PadStart;
  }

  lemma NoSlash(n: nat, width: nat)
    ensures '/' !in PadStart(Digits(n), width)
  {
    hide Digits, Zeros;
    DigitsAreDigits(n);
  }

  function FieldsOf(p: Position): (parts: seq<string>)
    ensures |parts| == 3
  {
    [PadStart(Digits(p.block), 12), PadStart(Digits(p.transaction), 6), PadStart(Digits(p.log), 6)]
  }

  lemma EventIdSplits(p: Position)
    ensures Split(EventId(p), '/') == FieldsOf(p)
    ensures NumberOf(FieldsOf(p)[0], 10) == Some(p.block)
    ensures NumberOf(FieldsOf(p)[1], 10) == Some(p.transaction)
    ensures NumberOf(FieldsOf(p)[2], 10) == Some(p.log)
  {
    PaddedNumber(p.block, 12);
    PaddedNumber(p.transaction, 6);
    PaddedNumber(p.log, 6);
    SplitJoin(FieldsOf(p), '/');
  }

  /** Different positions have different identifiers, whatever their size. */
  lemma EventIdInjective(p: Position, q: Position)
    ensures EventId(p) == EventId(q) <==> p == q
  {
    EventIdSplits(p);
    EventIdSplits(q);
  }

  // ---- order ----

  /** Order of strings by their first difference, as `<` compares them in JavaScript. */
  predicate Below(s: string, t: string) {
    if t == "" then false
    else if s == "" then true
    else s[0] < t[0] || (s[0] == t[0] && Below(s[1..], t[1..]))
  }

  predicate Before(p: Position, q: Position) {
    || p.block < q.block
    || (p.block == q.block && p.transaction < q.transaction)
    || (p.block == q.block && p.transaction == q.transaction && p.log < q.log)
  }

  function Pow10(n: nat): nat {
    if n == 0 then 1 else 10 * Pow10(n - 1)
  }

  lemma {:induction false} BelowConcat(a: string, b: string, x: string, y: string)
    requires |a| == |b|
    ensures Below(a + x, b + y) <==> Below(a, b) || (a == b && Below(x, y))
  {
    if a == "" {
      assert a + x == x && b + y == y;
    } else {
      assert (a + x)[1..] == a[1..] + x && (b + y)[1..] == b[1..] + y;
      BelowConcat(a[1..], b[1..], x, y);
      assert a == [a[0]] + a[1..] && b == [b[0]] + b[1..];
    }
  }

  /** Among digit strings of one length, order as text is order as numbers. */
  lemma {:induction false} BelowIsLess(s: string, t: string)
    requires |s| == |t|
    requires NumberOf(s, 10).Some? && NumberOf(t, 10).Some?
    ensures Below(s, t) <==> NumberOf(s, 10).value < NumberOf(t, 10).value
    ensures s == t <==> NumberOf(s, 10) == NumberOf(t, 10)
  {
    var s', t' := s[..|s| - 1], t[..|t| - 1];
    var x, y := s[|s| - 1], t[|t| - 1];
    assert s == s' + [x] && t == t' + [y];
    DigitOrder(x, y);
    BelowConcat(s', t', [x], [y]);
    assert Below([x], [y]) <==> x < y by {
      assert [x][1..] == [] && [y][1..] == [];
    }
    if |s| > 1 {
      BelowIsLess(s', t');
    }
  }

  lemma DigitOrder(x: char, y: char)
    requires Hex.Value(x).Some? && Hex.Value(x).value < 10 && Hex.Value(y).Some? && Hex.Value(y).value < 10
    ensures x < y <==> Hex.Value(x).value < Hex.Value(y).value
    ensures x == y <==> Hex.Value(x) == Hex.Value(y)
  {
  }

  lemma {:induction false} DigitsFit(n: nat, width: nat)
    requires width > 0 && n < Pow10(width)
    ensures |Digits(n)| <= width
  {
    if n >= 10 {
      assert Pow10(1) == 10;
      assert n / 10 < Pow10(width - 1);
      DigitsFit(n / 10, width - 1);
    }
  }

  lemma PaddedOrder(m: nat, n: nat, width: nat, x: string, y: string)
    requires width > 0 && m < Pow10(width) && n < Pow10(width)
    ensures Below(PadStart(Digits(m), width) + x, PadStart(Digits(n), width) + y) <==> m < n || (m == n && Below(x, y))
  {
    DigitsFit(m, width);
    DigitsFit(n, width);
    PaddedNumber(m, width);
    PaddedNumber(n, width);
    var s, t := PadStart(Digits(m), width), PadStart(Digits(n), width);
    BelowIsLess(s, t);
    BelowConcat(s, t, x, y);
  }

  lemma Powers()
    ensures Pow10(6) == 1_000_000 && Pow10(12) == 1_000_000_000_000
  {
    assert Pow10(3) == 1000;
    assert Pow10(6) == 1_000_000;
    assert Pow10(9) == 1_000_000_000;
  }

  lemma JoinThree(a: string, b: string, c: string)
    ensures Join([a, b, c], '/') == a + ("/" + (b + ("/" + c)))
  {
    var all, two, one := [a, b, c], [b, c], [c];
    assert all[1..] == two && two[1..] == one;
    assert Join(two, '/') == b + "/" + c;
  }

  lemma BelowAfterSlash(x: string, y: string)
    ensures Below("/" + x, "/" + y) <==> Below(x, y)
  {
    assert ("/" + x)[1..] == x && ("/" + y)[1..] == y;
  }

  /** While the numbers fit their fields, identifiers sort as the chain does. */
  lemma EventIdsSort(p: Position, q: Position)
    requires p.block < 1_000_000_000_000 && p.transaction < 1_000_000 && p.log < 1_000_000
    requires q.block < 1_000_000_000_000 && q.transaction < 1_000_000 && q.log < 1_000_000
    ensures Below(EventId(p), EventId(q)) <==> Before(p, q)
  {
    Powers();
    var a, b, c := PadStart(Digits(p.block), 12), PadStart(Digits(p.transaction), 6), PadStart(Digits(p.log), 6);
    var d, e, f := PadStart(Digits(q.block), 12), PadStart(Digits(q.transaction), 6), PadStart(Digits(q.log), 6);
    JoinThree(a, b, c);
    JoinThree(d, e, f);
    PaddedOrder(p.log, q.log, 6, "", "");
    assert c + "" == c && f + "" == f;
    BelowAfterSlash(c, f);
    PaddedOrder(p.transaction, q.transaction, 6, "/" + c, "/" + f);
    BelowAfterSlash(b + ("/" + c), e + ("/" + f));
    PaddedOrder(p.block, q.block, 12, "/" + (b + ("/" + c)), "/" + (e + ("/" + f)));
  }

  // ---- order past the widths of the fields ----

  /** The number without its last k digits. */
  function Leading(n: nat, k: nat): nat {
    if k == 0 then n else Leading(n / 10, k - 1)
  }

  function FieldWidth(n: nat, width: nat): nat {
    |PadStart(Digits(n), width)|
  }

  /**
   * Two different numbers compare as text as they do as numbers: their fields are equally wide, or the
   * narrower number is not above the digits it is compared with.
   */
  predicate InStep(m: nat, n: nat, width: nat) {
    var a, b := FieldWidth(m, width), FieldWidth(n, width);
    a == b || (a < b && m <= Leading(n, b - a)) || (b < a && n <= Leading(m, a - b))
  }

  /** The first field in which two positions differ is in step. */
  predicate PositionsInStep(p: Position, q: Position) {
    if p.block != q.block then InStep(p.block, q.block, 12)
    else if p.transaction != q.transaction then InStep(p.transaction, q.transaction, 6)
    else InStep(p.log, q.log, 6)
  }

  lemma {:induction false} LongerIsLarger(m: nat, n: nat)
    requires |Digits(m)| < |Digits(n)|
    ensures m < n
  {
    if m >= 10 {
      LongerIsLarger(m / 10, n / 10);
    }
  }

  /** The rest of an identifier after a field. */
  predicate EndsField(s: string) {
    s == "" || s[0] == '/'
  }

  /** The end of a field comes before any more digits. */
  lemma EndFirst(x: string, more: string)
    requires EndsField(x) && more != "" && IsDigit(more[0])
    ensures Below(x, more) && !Below(more, x)
  {
  }

  /** A field against a wider one: the wider one is compared by its first digits, and comes after if they are equal. */
  lemma PrefixOrder(s: string, u: string, v: string, x: string, y: string)
    requires |s| == |u| && v != "" && IsDigit(v[0]) && EndsField(x)
    ensures Below(s + x, u + v + y) <==> Below(s, u) || s == u
    ensures Below(u + v + y, s + x) <==> Below(u, s)
  {
    EndFirst(x, v + y);
    assert u + v + y == u + (v + y);
    hide Below;
    BelowConcat(s, u, x, v + y);
    BelowConcat(u, s, v + y, x);
  }

  /** The number that the first digits of a field spell. */
  lemma {:induction false} FirstDigits(u: string, v: string, n: nat)
    requires NumberOf(u + v, 10) == Some(n) && u != ""
    ensures NumberOf(u, 10) == Some(Leading(n, |v|))
    ensures v != "" ==> IsDigit(v[0])
  {
    if v == "" {
      assert u + v == u;
    } else {
      var front := v[..|v| - 1];
      assert (u + v)[..|u + v| - 1] == u + front;
      FirstDigits(u, front, n / 10);
    }
  }

  lemma WiderText(s: string, m: nat, u: string, v: string, n: nat, x: string, y: string)
    requires NumberOf(s, 10) == Some(m) && NumberOf(u + v, 10) == Some(n) && |s| == |u| && v != "" && EndsField(x)
    ensures Below(s + x, u + v + y) <==> m <= Leading(n, |v|)
    ensures Below(u + v + y, s + x) <==> Leading(n, |v|) < m
  {
    hide *;
    NonEmptyNumber(s, m);
    FirstDigits(u, v, n);
    PrefixOrder(s, u, v, x, y);
    BelowIsLess(s, u);
    BelowIsLess(u, s);
  }

  lemma Halves(t: string, i: nat)
    requires i < |t|
    ensures t == t[..i] + t[i..] && t[i..] != "" && |t[i..]| == |t| - i
  {
  }

  lemma WiderField(m: nat, n: nat, width: nat, x: string, y: string)
    requires EndsField(x) && EndsField(y) && FieldWidth(m, width) < FieldWidth(n, width)
    ensures m < n
    ensures var k := FieldWidth(n, width) - FieldWidth(m, width);
            && (Below(PadStart(Digits(m), width) + x, PadStart(Digits(n), width) + y) <==> m <= Leading(n, k))
            && (Below(PadStart(Digits(n), width) + y, PadStart(Digits(m), width) + x) <==> Leading(n, k) < m)
  {
    hide Digits, NumberOf, Leading, Below, Zeros;
    LongerText(m, n, width);
    PaddedNumber(m, width);
    PaddedNumber(n, width);
    hide PadStart;
    var s, t := PadStart(Digits(m), width), PadStart(Digits(n), width);
    Halves(t, |s|);
    WiderText(s, m, t[..|s|], t[|s|..], n, x, y);
  }

  lemma LongerText(m: nat, n: nat, width: nat)
    requires FieldWidth(m, width) < FieldWidth(n, width)
    ensures m < n
  {
    hide Digits;
    LongerIsLarger(m, n);
  }

  lemma NonEmptyNumber(s: string, n: nat)
    requires NumberOf(s, 10) == Some(n)
    ensures s != ""
  {
  }

  /** Where two numbers differ in a field, the order of the text is that of the numbers if and only if they are in step. */
  lemma FieldOrder(m: nat, n: nat, width: nat, x: string, y: string)
    requires EndsField(x) && EndsField(y) && m != n
    ensures (Below(PadStart(Digits(m), width) + x, PadStart(Digits(n), width) + y) <==> m < n) <==> InStep(m, n, width)
  {
    if FieldWidth(m, width) < FieldWidth(n, width) {
      WiderField(m, n, width, x, y);
    } else if FieldWidth(n, width) < FieldWidth(m, width) {
      WiderField(n, m, width, y, x);
    } else {
      PaddedNumber(m, width);
      PaddedNumber(n, width);
      BelowIsLess(PadStart(Digits(m), width), PadStart(Digits(n), width));
      BelowConcat(PadStart(Digits(m), width), PadStart(Digits(n), width), x, y);
    }
  }

  lemma SameField(a: string, x: string, y: string)
    ensures Below(a + ("/" + x), a + ("/" + y)) <==> Below(x, y)
  {
    BelowConcat(a, a, "/" + x, "/" + y);
    BelowAfterSlash(x, y);
    NotBelowItself(a);
  }

  lemma {:induction false} NotBelowItself(a: string)
    ensures !Below(a, a)
  {
    if a != "" {
      NotBelowItself(a[1..]);
    }
  }

  /** Of any two positions, the identifiers sort as the chain does if and only if the first field to differ is in step. */
  lemma EventIdsSortIff(p: Position, q: Position)
    ensures (Below(EventId(p), EventId(q)) <==> Before(p, q)) <==> PositionsInStep(p, q)
  {
    var ps, qs := FieldsOf(p), FieldsOf(q);
    JoinThree(ps[0], ps[1], ps[2]);
    JoinThree(qs[0], qs[1], qs[2]);
    hide InStep, PadStart, Digits, Join;
    if p.block != q.block {
      FieldOrder(p.block, q.block, 12, "/" + (ps[1] + ("/" + ps[2])), "/" + (qs[1] + ("/" + qs[2])));
    } else {
      SameField(ps[0], ps[1] + ("/" + ps[2]), qs[1] + ("/" + qs[2]));
      if p.transaction != q.transaction {
        FieldOrder(p.transaction, q.transaction, 6, "/" + ps[2], "/" + qs[2]);
      } else {
        SameField(ps[1], ps[2], qs[2]);
        if p.log != q.log {
          FieldOrder(p.log, q.log, 6, "", "");
          assert ps[2] + "" == ps[2] && qs[2] + "" == qs[2];
        } else {
          NotBelowItself(ps[2]);
          InStepItself(p.log);
        }
      }
    }
  }

  lemma InStepItself(n: nat)
    ensures InStep(n, n, 6)
  {
  }

  /** The digits of a power of ten and of the number below it. */
  lemma {:induction false} PowerDigits(k: nat)
    requires k > 0
    ensures |Digits(Pow10(k))| == k + 1 && Digits(Pow10(k))[0] == '1'
    ensures |Digits(Pow10(k) - 1)| == k && Digits(Pow10(k) - 1)[0] == '9'
  {
    assert Pow10(0) == 1 && Pow10(1) == 10;
    if k > 1 {
      PowerDigits(k - 1);
      assert Pow10(k) / 10 == Pow10(k - 1) && (Pow10(k) - 1) / 10 == Pow10(k - 1) - 1;
    }
  }

  /** Past its field a number breaks the order: block ten to the twelfth sorts before the block below it. */
  lemma TooWideBreaksOrder()
    ensures var p := Position(1_000_000_000_000, 0, 0);
            var q := Position(999_999_999_999, 0, 0);
            Before(q, p) && Below(EventId(p), EventId(q))
  {
    Powers();
    PowerDigits(12);
    var p, q := Position(1_000_000_000_000, 0, 0), Position(999_999_999_999, 0, 0);
    JoinThree(FieldsOf(p)[0], FieldsOf(p)[1], FieldsOf(p)[2]);
    JoinThree(FieldsOf(q)[0], FieldsOf(q)[1], FieldsOf(q)[2]);
    assert EventId(p)[0] == '1' && EventId(q)[0] == '9';
  }

  // ---- the text ----

  /** A number is printed without leading zeros. */
  lemma {:induction false} NoLeadingZero(n: nat)
    ensures Digits(n)[0] == '0' ==> Digits(n) == "0"
    ensures n > 0 ==> Digits(n)[0] != '0'
  {
    if n >= 10 {
      NoLeadingZero(n / 10);
    }
  }

  /** The digits of the number, with zeros in front up to the width and no further. */
  predicate FieldText(s: string, n: nat, width: nat) {
    NumberOf(s, 10) == Some(n) && |s| >= width && (|s| > width > 0 ==> s[0] != '0')
  }

  lemma PaddedText(n: nat, width: nat)
    requires width > 0
    ensures FieldText(PadStart(Digits(n), width), n, width)
  {
    PaddedNumber(n, width);
    NoLeadingZero(n);
    hide NumberOf, Digits, Zeros;
  }

  /** The text of an identifier: twelve digits of the block, six of the transaction, six of the log, or as many as it takes. */
  lemma EventIdText(p: Position) returns (block: string, transaction: string, log: string)
    ensures EventId(p) == block + ("/" + (transaction + ("/" + log)))
    ensures FieldText(block, p.block, 12) && FieldText(transaction, p.transaction, 6) && FieldText(log, p.log, 6)
  {
    hide FieldText, PadStart, Digits;
    block, transaction, log := PadStart(Digits(p.block), 12), PadStart(Digits(p.transaction), 6), PadStart(Digits(p.log), 6);
    JoinThree(block, transaction, log);
    PaddedText(p.block, 12);
    PaddedText(p.transaction, 6);
    PaddedText(p.log, 6);
  }

  // ---- other notations ----

  /** The digits of a number in some base, with letters in lower case. */
  function Spelled(n: nat, base: nat): (s: string)
    requires 2 <= base <= 16
    ensures s != ""
  {
    if n < base then [Hex.Digit(n, false)] else Spelled(n / base, base) + [Hex.Digit(n % base, false)]
  }

  lemma NumberNext(s: string, c: char, base: nat)
    requires 2 <= base <= 16 && NumberOf(s, base).Some? && Hex.Value(c).Some? && Hex.Value(c).value < base
    ensures NumberOf(s + [c], base) == Some(NumberOf(s, base).value * base + Hex.Value(c).value)
  {
    assert (s + [c])[..|s|] == s;
    assert s != "";
  }

  lemma DivMod(n: nat, base: nat)
    requires base > 0
    ensures n / base * base + n % base == n && 0 <= n % base < base
  {
  }

  lemma {:induction false} NumberOfSpelled(n: nat, base: nat)
    requires 2 <= base <= 16
    ensures NumberOf(Spelled(n, base), base) == Some(n)
  {
    hide NumberOf, Hex.Digit, Hex.Value;
    if n >= base {
      NumberOfSpelled(n / base, base);
      DivMod(n, base);
      Hex.ValueOfDigit(n % base, false);
      NumberNext(Spelled(n / base, base), Hex.Digit(n % base, false), base);
    } else {
      OneDigit(n, base);
    }
  }

  lemma OneDigit(n: nat, base: nat)
    requires 2 <= base <= 16 && n < base
    ensures NumberOf([Hex.Digit(n, false)], base) == Some(n)
  {
    Hex.ValueOfDigit(n, false);
  }

  /** The text is one or more digits of the base. */
  predicate Spells(s: string, base: nat) {
    s != "" && forall i :: 0 <= i < |s| ==> Hex.Value(s[i]).Some? && Hex.Value(s[i]).value < base
  }

  lemma {:induction false} NumberIff(s: string, base: nat)
    requires 2 <= base <= 16
    ensures NumberOf(s, base).Some? <==> Spells(s, base)
  {
    if |s| > 1 {
      NumberIff(s[..|s| - 1], base);
      assert s == s[..|s| - 1] + [s[|s| - 1]];
    }
  }

  lemma ParseWithPrefix(c: char, s: string)
    ensures c in "xX" ==> ParseBigInt(['0', c] + s) == NumberOf(s, 16)
    ensures c in "oO" ==> ParseBigInt(['0', c] + s) == NumberOf(s, 8)
    ensures c in "bB" ==> ParseBigInt(['0', c] + s) == NumberOf(s, 2)
    ensures ParseBigInt(['+'] + s) == NumberOf(s, 10)
  {
    hide NumberOf;
    assert (['0', c] + s)[2..] == s && (['+'] + s)[1..] == s;
  }

  /** After 0x, 0o and 0b, in either case, digits are read to base sixteen, eight and two; after a plus sign, to base ten. */
  lemma ParsePrefixed(n: nat, c: char)
    ensures c in "xX" ==> ParseBigInt(['0', c] + Spelled(n, 16)) == Some(n)
    ensures c in "oO" ==> ParseBigInt(['0', c] + Spelled(n, 8)) == Some(n)
    ensures c in "bB" ==> ParseBigInt(['0', c] + Spelled(n, 2)) == Some(n)
    ensures ParseBigInt(['+'] + Spelled(n, 10)) == Some(n)
    ensures ParseBigInt("") == Some(0)
  {
    assert ParseBigInt("") == Some(0);
    hide NumberOf, Spelled, ParseBigInt;
    NumberOfSpelled(n, 16);
    NumberOfSpelled(n, 8);
    NumberOfSpelled(n, 2);
    NumberOfSpelled(n, 10);
    ParseWithPrefix(c, Spelled(n, 16));
    ParseWithPrefix(c, Spelled(n, 8));
    ParseWithPrefix(c, Spelled(n, 2));
    ParseWithPrefix(c, Spelled(n, 10));
  }

  /** A text that starts with no prefix and no sign is a number exactly when it is all decimal digits. */
  lemma ParsePlainIff(s: string)
    requires s != "" && s[0] != '+' && s[0] != '-'
    requires |s| >= 2 && s[0] == '0' ==> s[1] !in "xXoObB"
    ensures ParseBigInt(s).Some? <==> forall i :: 0 <= i < |s| ==> IsDigit(s[i])
  {
    NumberIff(s, 10);
    hide NumberOf;
  }
}
