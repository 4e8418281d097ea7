/** Canonical JSON bytes: the text that predicate cache keys are hashed from. Objects are
    field lists with distinct keys, in whatever order the parser left them. */
module Canonical {
  import opened Common
  import Decimal

  /** A Unicode scalar value. */
  type Scalar = c: int | 0 <= c < 0x11_0000 && !(0xD800 <= c < 0xE000)
  type Text = seq<Scalar>

  datatype Json = Null | Bool(b: bool) | Num(n: int) | Str(s: Text) | Arr(items: seq<Json>) | Obj(fields: seq<Field>)
  datatype Field = Field(key: Text, value: Json)

  const QUOTE: Byte := 0x22
  const BACKSLASH: Byte := 0x5C
  const COMMA: Byte := 0x2C
  const COLON: Byte := 0x3A
  const MINUS: Byte := 0x2D
  const OPEN_ARR: Byte := 0x5B
  const CLOSE_ARR: Byte := 0x5D
  const OPEN_OBJ: Byte := 0x7B
  const CLOSE_OBJ: Byte := 0x7D

  // ----- Characters -----

  function Utf8(c: Scalar): Bytes {
    if c < 0x80 then [c]
    else if c < 0x800 then [0xC0 + c / 64, 0x80 + c % 64]
    else if c < 0x1_0000 then [0xE0 + c / 4096, 0x80 + c / 64 % 64, 0x80 + c % 64]
    else [0xF0 + c / 262144, 0x80 + c / 4096 % 64, 0x80 + c / 64 % 64, 0x80 + c % 64]
  }

  function HexDigit(d: int): Byte
    requires 0 <= d < 16
  {
    if d < 10 then 0x30 + d else 0x57 + d
  }

  /** The letter after the backslash, for the characters that have a short escape. */
  function ShortEscape(c: Scalar): Option<Byte> {
    if c == 0x22 then Some(0x22)
    else if c == 0x5C then Some(0x5C)
    else if c == 0x0A then Some(0x6E)
    else if c == 0x0D then Some(0x72)
    else if c == 0x09 then Some(0x74)
    else if c == 0x08 then Some(0x62)
    else if c == 0x0C then Some(0x66)
    else None
  }

  function Escape(c: Scalar): Bytes {
    match ShortEscape(c)
    case Some(letter) => [BACKSLASH, letter]
    case None => if c < 0x20 then [BACKSLASH, 0x75, 0x30, 0x30, HexDigit(c / 16), HexDigit(c % 16)] else Utf8(c)
  }

  // ----- A reader of characters, to show the escapes decodable -----

  function Lead(b: int, mark: int): int {
    b - mark
  }

  /** Append the six bits of a continuation byte. */
  function Append6(high: int, b: int): int {
    high * 64 + (b - 0x80)
  }

  /** The first character and how many bytes it takes. */
  function ReadUtf8(s: Bytes): (r: Option<(int, nat)>)
    ensures r.Some? ==> 0 < r.value.1 <= |s|
  {
    if s == [] then None
    else if s[0] < 0x80 then Some((s[0], 1))
    else if s[0] < 0xE0 then
      if |s| < 2 then None else Some((Append6(Lead(s[0], 0xC0), s[1]), 2))
    else if s[0] < 0xF0 then
      if |s| < 3 then None else Some((Append6(Append6(Lead(s[0], 0xE0), s[1]), s[2]), 3))
    else if |s| < 4 then None
    else Some((Append6(Append6(Append6(Lead(s[0], 0xF0), s[1]), s[2]), s[3]), 4))
  }

  function HexValue(b: Byte): int {
    if b < 0x57 then b - 0x30 else b - 0x57
  }

  function Unescape(letter: Byte): int {
    if letter == 0x6E then 0x0A
    else if letter == 0x72 then 0x0D
    else if letter == 0x74 then 0x09
    else if letter == 0x62 then 0x08
    else if letter == 0x66 then 0x0C
    else letter
  }

  function ReadChar(s: Bytes): (r: Option<(int, nat)>)
    ensures r.Some? ==> 0 < r.value.1 <= |s|
  {
    if s == [] || s[0] != BACKSLASH then ReadUtf8(s)
    else if |s| < 2 then None
    else if s[1] != 0x75 then Some((Unescape(s[1]), 2))
    else if |s| < 6 then None
    else Some((HexValue(s[4]) * 16 + HexValue(s[5]), 6))
  }

  lemma SixBits(c: Scalar)
    ensures c == c / 64 * 64 + c % 64
    ensures c / 64 == c / 4096 * 64 + c / 64 % 64
    ensures c / 4096 == c / 262144 * 64 + c / 4096 % 64
  {
  }

  lemma Utf8Reads(c: Scalar, rest: Bytes)
    ensures ReadUtf8(Utf8(c) + rest) == Some((c, |Utf8(c)|))
  {
    SixBits(c);
  }

  lemma EscapeReads(c: Scalar, rest: Bytes)
    ensures ReadChar(Escape(c) + rest) == Some((c, |Escape(c)|))
    ensures Escape(c) != [] && Escape(c)[0] != QUOTE
  {
    if ShortEscape(c).None? && c >= 0x20 {
      Utf8Reads(c, rest);
      assert (Utf8(c) + rest)[0] == Utf8(c)[0];
    }
  }

  /** Encoded characters have the byte ranges of section 4 of RFC 3629. */
  lemma Utf8IsStandard(c: Scalar)
    ensures var s := Utf8(c);
            if c < 0x80 then s == [c]
            else if c < 0x800 then |s| == 2 && 0xC2 <= s[0] <= 0xDF && Continues(s[1..])
            else if c < 0x1_0000 then
              |s| == 3 && 0xE0 <= s[0] <= 0xEF && Continues(s[1..]) && (s[0] == 0xE0 ==> s[1] >= 0xA0) && (s[0] == 0xED ==> s[1] <= 0x9F)
            else |s| == 4 && 0xF0 <= s[0] <= 0xF4 && Continues(s[1..]) && (s[0] == 0xF0 ==> s[1] >= 0x90) && (s[0] == 0xF4 ==> s[1] <= 0x8F)
  {
    SixBits(c);
  }

  /** Escapes are those of section 3.2.2.2 of RFC 8785: two bytes where there is a short
      one, lower-case hexadecimal for the other controls, and else the character itself. */
  lemma EscapeIsStandard(c: Scalar)
    ensures Escape(0x08) == [0x5C, 0x62] && Escape(0x09) == [0x5C, 0x74] && Escape(0x0A) == [0x5C, 0x6E]
    ensures Escape(0x0C) == [0x5C, 0x66] && Escape(0x0D) == [0x5C, 0x72]
    ensures Escape(0x22) == [0x5C, 0x22] && Escape(0x5C) == [0x5C, 0x5C]
    ensures c < 0x20 && c !in [0x08, 0x09, 0x0A, 0x0C, 0x0D] ==>
            exists h, l :: Escape(c) == [0x5C, 0x75, 0x30, 0x30, h, l] && IsLowerHex(c / 16, h) && IsLowerHex(c % 16, l)
    ensures c >= 0x20 && c != 0x22 && c != 0x5C ==> Escape(c) == Utf8(c)
  {
    if c < 0x20 { assert IsLowerHex(c / 16, HexDigit(c / 16)) && IsLowerHex(c % 16, HexDigit(c % 16)); }
  }

  ghost predicate IsLowerHex(d: int, b: Byte) {
    (0 <= d <= 9 && b == 0x30 + d) || (10 <= d <= 15 && b == 0x61 + (d - 10))
  }

  ghost predicate Continues(s: Bytes) {
    forall i :: 0 <= i < |s| ==> 0x80 <= s[i] <= 0xBF
  }

  lemma EscapeIsUnique(c: Scalar, d: Scalar, s: Bytes, t: Bytes)
    requires Escape(c) + s == Escape(d) + t
    ensures c == d && s == t
  {
    EscapeReads(c, s);
    EscapeReads(d, t);
    assert s == (Escape(c) + s)[|Escape(c)|..];
  }

  lemma Utf8IsUnique(c: Scalar, d: Scalar, s: Bytes, t: Bytes)
    requires Utf8(c) + s == Utf8(d) + t
    ensures c == d && s == t
  {
    Utf8Reads(c, s);
    Utf8Reads(d, t);
    assert s == (Utf8(c) + s)[|Utf8(c)|..];
  }

  // ----- Key order -----

  function Encoded(text: Text): Bytes {
    if text == [] then [] else Utf8(text[0]) + Encoded(text[1..])
  }

  lemma {:induction false} EncodedIsUnique(a: Text, b: Text)
    requires Encoded(a) == Encoded(b)
    ensures a == b
  {
    if a != [] && b != [] {
      Utf8IsUnique(a[0], b[0], Encoded(a[1..]), Encoded(b[1..]));
      EncodedIsUnique(a[1..], b[1..]);
    }
  }

  predicate BytesBefore(a: Bytes, b: Bytes) {
    b != [] && (a == [] || a[0] < b[0] || (a[0] == b[0] && BytesBefore(a[1..], b[1..])))
  }

  /** `a` and `b` agree on their first `k` bytes, and then `a` ends or is smaller. */
  ghost predicate SmallerAt(a: Bytes, b: Bytes, k: nat) {
    k <= |a| && k < |b| && a[..k] == b[..k] && (k == |a| || a[k] < b[k])
  }

  /** The order is the lexicographic one. */
  lemma {:induction false} BytesBeforeIsLexicographic(a: Bytes, b: Bytes)
    ensures BytesBefore(a, b) <==> exists k: nat :: SmallerAt(a, b, k)
  {
    if a != [] && b != [] && a[0] == b[0] {
      BytesBeforeIsLexicographic(a[1..], b[1..]);
      if k: nat :| SmallerAt(a[1..], b[1..], k) { SmallerBehind(a, b, k); }
      if k: nat :| SmallerAt(a, b, k) { SmallerBehind(a, b, k - 1); }
    } else if BytesBefore(a, b) {
      assert SmallerAt(a, b, 0);
    } else {
      forall k: nat ensures !SmallerAt(a, b, k) {
        if 0 < k <= |a| && k < |b| { assert a[..k][0] == a[0] && b[..k][0] == b[0]; }
      }
    }
  }

  lemma SmallerBehind(a: Bytes, b: Bytes, k: nat)
    requires a != [] && b != [] && a[0] == b[0]
    ensures SmallerAt(a, b, k + 1) <==> SmallerAt(a[1..], b[1..], k)
  {
    if k + 1 <= |a| && k + 1 <= |b| {
      assert a[..k + 1] == [a[0]] + a[1..][..k] && b[..k + 1] == [b[0]] + b[1..][..k];
      assert a[1..][..k] == a[..k + 1][1..] && b[1..][..k] == b[..k + 1][1..];
    }
  }

  /** Keys in the order of their UTF-8 bytes. */
  predicate Before(a: Text, b: Text) {
    BytesBefore(Encoded(a), Encoded(b))
  }

  lemma {:induction false} BytesAreOrdered(a: Bytes, b: Bytes)
    ensures a == b || BytesBefore(a, b) || BytesBefore(b, a)
    ensures !(BytesBefore(a, b) && BytesBefore(b, a))
  {
    if a != [] && b != [] && a[0] == b[0] {
      BytesAreOrdered(a[1..], b[1..]);
      assert a[1..] == b[1..] ==> a == [a[0]] + b[1..] == b;
    }
  }

  lemma {:induction false} BytesBeforeTransitive(a: Bytes, b: Bytes, c: Bytes)
    requires BytesBefore(a, b) && BytesBefore(b, c)
    ensures BytesBefore(a, c)
  {
    if a != [] && a[0] == b[0] == c[0] { BytesBeforeTransitive(a[1..], b[1..], c[1..]); }
  }

  lemma KeysAreOrdered(a: Text, b: Text)
    ensures a == b || Before(a, b) || Before(b, a)
    ensures !(Before(a, b) && Before(b, a))
  {
    BytesAreOrdered(Encoded(a), Encoded(b));
    if Encoded(a) == Encoded(b) { EncodedIsUnique(a, b); }
  }

  ghost predicate Ascending(keys: seq<Text>) {
    forall i, j :: 0 <= i < j < |keys| ==> Before(keys[i], keys[j])
  }

  function InsertKey(k: Text, keys: seq<Text>): seq<Text> {
    if keys == [] || Before(k, keys[0]) then [k] + keys else [keys[0]] + InsertKey(k, keys[1..])
  }

  function SortKeys(keys: seq<Text>): seq<Text> {
    if keys == [] then [] else InsertKey(keys[0], SortKeys(keys[1..]))
  }

  ghost predicate Distinct(keys: seq<Text>) {
    forall i, j :: 0 <= i < j < |keys| ==> keys[i] != keys[j]
  }

  lemma BeforeTransitive(a: Text, b: Text, c: Text)
    requires Before(a, b) && Before(b, c)
    ensures Before(a, c)
  {
    BytesBeforeTransitive(Encoded(a), Encoded(b), Encoded(c));
  }

  lemma ConsAscends(k: Text, keys: seq<Text>)
    requires Ascending(keys) && forall x :: x in keys ==> Before(k, x)
    ensures Ascending([k] + keys)
  {
    var r := [k] + keys;
    forall i, j | 0 <= i < j < |r| ensures Before(r[i], r[j]) {
      assert r[j] == keys[j - 1] && keys[j - 1] in keys;
    }
  }

  lemma HeadIsBefore(k: Text, keys: seq<Text>)
    requires Ascending(keys) && keys != [] && Before(k, keys[0])
    ensures forall x :: x in keys ==> Before(k, x)
  {
    forall x | x in keys ensures Before(k, x) {
      if x != keys[0] { BeforeTransitive(k, keys[0], x); }
    }
  }

  lemma {:induction false} InsertKeeps(k: Text, keys: seq<Text>)
    requires Ascending(keys) && k !in keys
    ensures var r := InsertKey(k, keys); Ascending(r) && |r| == |keys| + 1 && forall x :: x in r <==> x == k || x in keys
  {
    if keys != [] && Before(k, keys[0]) {
      HeadIsBefore(k, keys);
      ConsAscends(k, keys);
    } else if keys != [] {
      KeysAreOrdered(k, keys[0]);
      InsertKeeps(k, keys[1..]);
      ConsAscends(keys[0], InsertKey(k, keys[1..]));
    }
  }

  /** Sorting distinct keys puts exactly them in ascending order. */
  lemma {:induction false} SortKeysSorts(keys: seq<Text>)
    requires Distinct(keys)
    ensures Ascending(SortKeys(keys)) && |SortKeys(keys)| == |keys| && forall x :: x in SortKeys(keys) <==> x in keys
  {
    if keys != [] {
      SortKeysSorts(keys[1..]);
      InsertKeeps(keys[0], SortKeys(keys[1..]));
    }
  }

  /** There is one ascending order. */
  lemma {:induction false} AscendingIsUnique(a: seq<Text>, b: seq<Text>)
    requires Ascending(a) && Ascending(b) && forall x :: x in a <==> x in b
    ensures a == b
  {
    assert a != [] ==> a[0] in a;
    assert b != [] ==> b[0] in b;
    if a != [] {
      FirstIsLeast(a, b[0]);
      FirstIsLeast(b, a[0]);
      KeysAreOrdered(a[0], b[0]);
      forall x ensures x in a[1..] <==> x in b[1..] {
        KeysAreOrdered(a[0], a[0]);
        assert x in a <==> x == a[0] || x in a[1..];
        assert x in b <==> x == b[0] || x in b[1..];
      }
      AscendingIsUnique(a[1..], b[1..]);
    }
  }

  lemma FirstIsLeast(keys: seq<Text>, k: Text)
    requires Ascending(keys) && k in keys
    ensures k == keys[0] || Before(keys[0], k)
  {
  }

  // ----- Printing -----

  function Chars(text: Text): Bytes {
    if text == [] then [] else Escape(text[0]) + Chars(text[1..])
  }

  function Quoted(text: Text): Bytes {
    [QUOTE] + Chars(text) + [QUOTE]
  }

  function Ascii(s: string): Bytes
    requires forall i :: 0 <= i < |s| ==> s[i] as int < 128
  {
    seq(|s|, i requires 0 <= i < |s| => s[i] as int)
  }

  function Decimals(n: int): Bytes {
    if n < 0 then [MINUS] + Ascii(Decimal.Digits(-n)) else Ascii(Decimal.Digits(n))
  }

  /** A value in the order its fields are listed. */
  function Print(v: Json): Bytes
    decreases v
  {
    match v
    case Null => Ascii("null")
    case Bool(b) => Ascii(if b then "true" else "false")
    case Num(n) => Decimals(n)
    case Str(s) => Quoted(s)
    case Arr(items) => [OPEN_ARR] + (if items == [] then [] else Print(items[0]) + MoreItems(items[1..])) + [CLOSE_ARR]
    case Obj(fields) => [OPEN_OBJ] + (if fields == [] then [] else PrintField(fields[0]) + MoreFields(fields[1..])) + [CLOSE_OBJ]
  }

  function MoreItems(items: seq<Json>): Bytes
    decreases items
  {
    if items == [] then [] else [COMMA] + Print(items[0]) + MoreItems(items[1..])
  }

  function PrintField(f: Field): Bytes
    decreases f
  {
    Quoted(f.key) + [COLON] + Print(f.value)
  }

  function MoreFields(fields: seq<Field>): Bytes
    decreases fields
  {
    if fields == [] then [] else [COMMA] + PrintField(fields[0]) + MoreFields(fields[1..])
  }

  // ----- Printing is injective -----

  lemma DropFirst(b: Byte, x: Bytes, s: Bytes)
    ensures ([b] + x + s)[0] == b && ([b] + x + s)[1..] == x + s
  {
  }

  lemma Regroup(x: Bytes, b: Byte, y: Bytes, s: Bytes)
    ensures x + [b] + y + s == x + ([b] + y + s)
  {
  }

  /** A bracketed list behind its opening byte. */
  lemma DropOpen(b: Byte, x: Bytes, more: Bytes, close: Byte, s: Bytes)
    requires x != []
    ensures var z := [b] + (x + more) + [close] + s; z[1] == x[0] && z[1..] == x + (more + [close] + s)
  {
  }

  /** The rest of a list behind its comma. */
  lemma DropComma(b: Byte, x: Bytes, more: Bytes, close: Byte, s: Bytes)
    ensures ([b] + x + more + [close] + s)[1..] == x + (more + [close] + s)
  {
  }

  lemma CharsStart(a: Text, s: Bytes)
    ensures var z := Chars(a) + [QUOTE] + s;
            && (z[0] == QUOTE <==> a == [])
            && (a == [] ==> z[1..] == s)
            && (a != [] ==> z == Escape(a[0]) + (Chars(a[1..]) + [QUOTE] + s))
  {
    if a != [] {
      EscapeReads(a[0], []);
      var rest := Chars(a[1..]);
      assert Escape(a[0]) + rest + [QUOTE] + s == Escape(a[0]) + (rest + [QUOTE] + s);
    }
  }

  lemma {:induction false} CharsAreUnique(a: Text, b: Text, s: Bytes, t: Bytes)
    requires Chars(a) + [QUOTE] + s == Chars(b) + [QUOTE] + t
    ensures a == b && s == t
  {
    CharsStart(a, s);
    CharsStart(b, t);
    if a != [] {
      EscapeIsUnique(a[0], b[0], Chars(a[1..]) + [QUOTE] + s, Chars(b[1..]) + [QUOTE] + t);
      CharsAreUnique(a[1..], b[1..], s, t);
      assert a == [a[0]] + a[1..] && b == [b[0]] + b[1..];
    }
  }

  lemma QuotedTail(a: Text, s: Bytes)
    ensures Quoted(a) + s == [QUOTE] + (Chars(a) + [QUOTE] + s)
  {
  }

  lemma QuotedIsUnique(a: Text, b: Text, s: Bytes, t: Bytes)
    requires Quoted(a) + s == Quoted(b) + t
    ensures a == b && s == t
  {
    QuotedTail(a, s);
    QuotedTail(b, t);
    Behind([QUOTE], Chars(a) + [QUOTE] + s, Chars(b) + [QUOTE] + t);
    CharsAreUnique(a, b, s, t);
  }

  /** What can follow a value: nothing, a comma or a closing bracket. */
  predicate Ends(s: Bytes) {
    s == [] || s[0] == COMMA || s[0] == CLOSE_ARR || s[0] == CLOSE_OBJ
  }

  predicate DigitByte(b: Byte) {
    0x30 <= b <= 0x39
  }

  lemma {:induction false} DigitsStop(x: string, y: string, s: Bytes, t: Bytes)
    requires Decimal.AllDigits(x) && Decimal.AllDigits(y) && Ascii(x) + s == Ascii(y) + t && Ends(s) && Ends(t)
    ensures x == y && s == t
  {
    DigitsStart(x, s);
    DigitsStart(y, t);
    if x != [] {
      DigitsStop(x[1..], y[1..], s, t);
      assert x == [x[0]] + x[1..] && y == [y[0]] + y[1..];
    }
  }

  lemma DigitsStart(x: string, s: Bytes)
    requires Decimal.AllDigits(x) && Ends(s)
    ensures var z := Ascii(x) + s;
            && (x == [] ==> z == s && Ends(z))
            && (x != [] ==> z != [] && !Ends(z) && z[0] == x[0] as int && z[1..] == Ascii(x[1..]) + s)
  {
  }

  function Magnitude(n: int): nat {
    if n < 0 then -n else n
  }

  lemma SignStarts(n: int, s: Bytes)
    ensures var z := Decimals(n) + s; z != [] && (n < 0 <==> z[0] == MINUS)
    ensures var digits := Ascii(Decimal.Digits(Magnitude(n)));
            Decimals(n) + s == if n < 0 then [MINUS] + (digits + s) else digits + s
  {
    var x := Decimal.Digits(Magnitude(n));
    assert Decimal.IsDigit(x[0]);
    if n < 0 { assert [MINUS] + Ascii(x) + s == [MINUS] + (Ascii(x) + s); } else { assert (Ascii(x) + s)[0] == x[0] as int; }
  }

  lemma DecimalsAreUnique(m: int, n: int, s: Bytes, t: Bytes)
    requires Decimals(m) + s == Decimals(n) + t && Ends(s) && Ends(t)
    ensures m == n && s == t
  {
    var x, y := Decimal.Digits(Magnitude(m)), Decimal.Digits(Magnitude(n));
    SignStarts(m, s);
    SignStarts(n, t);
    Behind([MINUS], Ascii(x) + s, Ascii(y) + t);
    DigitsStop(x, y, s, t);
    Decimal.DigitsRead(Magnitude(m));
    Decimal.DigitsRead(Magnitude(n));
  }

  lemma Behind(p: Bytes, s: Bytes, t: Bytes)
    ensures p + s == p + t <==> s == t
  {
    assert (p + s)[|p|..] == s && (p + t)[|p|..] == t;
  }

  /** The first byte tells what kind of value follows. */
  lemma FirstByte(v: Json)
    ensures var p := Print(v);
            p != [] && match v {
              case Null => p[0] == 0x6E
              case Bool(b) => p[0] == if b then 0x74 else 0x66
              case Num(_) => p[0] == MINUS || DigitByte(p[0])
              case Str(_) => p[0] == QUOTE
              case Arr(_) => p[0] == OPEN_ARR
              case Obj(_) => p[0] == OPEN_OBJ
            }
  {
    if v.Num? { assert Decimal.IsDigit(Decimal.Digits(if v.n < 0 then -v.n else v.n)[0]); }
  }

  lemma {:induction false} PrintIsUnique(a: Json, b: Json, s: Bytes, t: Bytes)
    requires Print(a) + s == Print(b) + t && Ends(s) && Ends(t)
    ensures a == b && s == t
    decreases a
  {
    var z := Print(a) + s;
    FirstByte(a);
    FirstByte(b);
    assert z[0] == Print(a)[0] == Print(b)[0];
    match a
    case Null => assert b.Null? && s == z[4..] && t == z[4..];
    case Bool(x) => assert b == a && s == z[|Print(a)|..] && t == z[|Print(a)|..];
    case Num(n) => DecimalsAreUnique(n, b.n, s, t);
    case Str(x) => QuotedIsUnique(x, b.s, s, t);
    case Arr(items) => ItemsAreUnique(items, b.items, s, t);
    case Obj(fields) => FieldsAreUnique(fields, b.fields, s, t);
  }

  lemma {:induction false} ItemsAreUnique(a: seq<Json>, b: seq<Json>, s: Bytes, t: Bytes)
    requires Print(Arr(a)) + s == Print(Arr(b)) + t
    ensures a == b && s == t
    decreases a
  {
    var z := Print(Arr(a)) + s;
    var x, y := [CLOSE_ARR] + s, [CLOSE_ARR] + t;
    if a != [] {
      FirstByte(a[0]);
      x := MoreItems(a[1..]) + [CLOSE_ARR] + s;
      DropOpen(OPEN_ARR, Print(a[0]), MoreItems(a[1..]), CLOSE_ARR, s);
    }
    if b != [] {
      FirstByte(b[0]);
      y := MoreItems(b[1..]) + [CLOSE_ARR] + t;
      DropOpen(OPEN_ARR, Print(b[0]), MoreItems(b[1..]), CLOSE_ARR, t);
    }
    if a != [] && b != [] {
      MoreItemsEnd(a[1..], s);
      MoreItemsEnd(b[1..], t);
      PrintIsUnique(a[0], b[0], x, y);
      MoreItemsAreUnique(a[1..], b[1..], s, t);
    } else {
      assert a == [] ==> z[1] == CLOSE_ARR;
      assert b == [] ==> z[1] == CLOSE_ARR;
      assert s == z[2..] && t == z[2..];
    }
  }

  lemma MoreItemsEnd(items: seq<Json>, s: Bytes)
    ensures Ends(MoreItems(items) + [CLOSE_ARR] + s)
    ensures (MoreItems(items) + [CLOSE_ARR] + s)[0] == if items == [] then CLOSE_ARR else COMMA
  {
  }

  lemma {:induction false} MoreItemsAreUnique(a: seq<Json>, b: seq<Json>, s: Bytes, t: Bytes)
    requires MoreItems(a) + [CLOSE_ARR] + s == MoreItems(b) + [CLOSE_ARR] + t
    ensures a == b && s == t
    decreases a
  {
    var z := MoreItems(a) + [CLOSE_ARR] + s;
    MoreItemsEnd(a, s);
    MoreItemsEnd(b, t);
    if a != [] {
      var x, y := MoreItems(a[1..]) + [CLOSE_ARR] + s, MoreItems(b[1..]) + [CLOSE_ARR] + t;
      DropComma(COMMA, Print(a[0]), MoreItems(a[1..]), CLOSE_ARR, s);
      DropComma(COMMA, Print(b[0]), MoreItems(b[1..]), CLOSE_ARR, t);
      MoreItemsEnd(a[1..], s);
      MoreItemsEnd(b[1..], t);
      PrintIsUnique(a[0], b[0], x, y);
      MoreItemsAreUnique(a[1..], b[1..], s, t);
    } else {
      assert s == z[1..] && t == z[1..];
    }
  }

  lemma {:induction false} FieldIsUnique(f: Field, g: Field, s: Bytes, t: Bytes)
    requires PrintField(f) + s == PrintField(g) + t && Ends(s) && Ends(t)
    ensures f == g && s == t
    decreases f
  {
    var x, y := [COLON] + Print(f.value) + s, [COLON] + Print(g.value) + t;
    Regroup(Quoted(f.key), COLON, Print(f.value), s);
    Regroup(Quoted(g.key), COLON, Print(g.value), t);
    QuotedIsUnique(f.key, g.key, x, y);
    DropFirst(COLON, Print(f.value), s);
    DropFirst(COLON, Print(g.value), t);
    PrintIsUnique(f.value, g.value, s, t);
  }

  lemma {:induction false} FieldsAreUnique(a: seq<Field>, b: seq<Field>, s: Bytes, t: Bytes)
    requires Print(Obj(a)) + s == Print(Obj(b)) + t
    ensures a == b && s == t
    decreases a
  {
    var z := Print(Obj(a)) + s;
    var x, y := [CLOSE_OBJ] + s, [CLOSE_OBJ] + t;
    if a != [] {
      x := MoreFields(a[1..]) + [CLOSE_OBJ] + s;
      FieldStarts(a[0]);
      DropOpen(OPEN_OBJ, PrintField(a[0]), MoreFields(a[1..]), CLOSE_OBJ, s);
    }
    if b != [] {
      y := MoreFields(b[1..]) + [CLOSE_OBJ] + t;
      FieldStarts(b[0]);
      DropOpen(OPEN_OBJ, PrintField(b[0]), MoreFields(b[1..]), CLOSE_OBJ, t);
    }
    if a != [] && b != [] {
      MoreFieldsEnd(a[1..], s);
      MoreFieldsEnd(b[1..], t);
      FieldIsUnique(a[0], b[0], x, y);
      MoreFieldsAreUnique(a[1..], b[1..], s, t);
    } else {
      assert a == [] ==> z[1] == CLOSE_OBJ;
      assert b == [] ==> z[1] == CLOSE_OBJ;
      assert s == z[2..] && t == z[2..];
    }
  }

  lemma FieldStarts(f: Field)
    ensures PrintField(f) != [] && PrintField(f)[0] == QUOTE
  {
  }

  lemma MoreFieldsEnd(fields: seq<Field>, s: Bytes)
    ensures Ends(MoreFields(fields) + [CLOSE_OBJ] + s)
    ensures (MoreFields(fields) + [CLOSE_OBJ] + s)[0] == if fields == [] then CLOSE_OBJ else COMMA
  {
  }

  lemma {:induction false} MoreFieldsAreUnique(a: seq<Field>, b: seq<Field>, s: Bytes, t: Bytes)
    requires MoreFields(a) + [CLOSE_OBJ] + s == MoreFields(b) + [CLOSE_OBJ] + t
    ensures a == b && s == t
    decreases a
  {
    var z := MoreFields(a) + [CLOSE_OBJ] + s;
    MoreFieldsEnd(a, s);
    MoreFieldsEnd(b, t);
    if a != [] {
      var x, y := MoreFields(a[1..]) + [CLOSE_OBJ] + s, MoreFields(b[1..]) + [CLOSE_OBJ] + t;
      DropComma(COMMA, PrintField(a[0]), MoreFields(a[1..]), CLOSE_OBJ, s);
      DropComma(COMMA, PrintField(b[0]), MoreFields(b[1..]), CLOSE_OBJ, t);
      MoreFieldsEnd(a[1..], s);
      MoreFieldsEnd(b[1..], t);
      FieldIsUnique(a[0], b[0], x, y);
      MoreFieldsAreUnique(a[1..], b[1..], s, t);
    } else {
      assert s == z[1..] && t == z[1..];
    }
  }
}
