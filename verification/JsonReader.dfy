/** A reader of JSON texts after the grammar of RFC 8259 without whitespace (sections 2
    to 7, numbers being integers), and that canonical bytes are such texts. */
module JsonReader {
  import opened Common
  import opened Canonical
  import opened CanonicalForm
  import Decimal

  // ----- The reader -----

  function StartsWith(s: Bytes, p: Bytes): bool {
    |p| <= |s| && s[..|p|] == p
  }

  function IsDigit(b: Byte): bool {
    0x30 <= b <= 0x39
  }

  /** Digits as far as they go, over the value read so far. */
  function ReadDigits(s: Bytes, sofar: nat): (nat, Bytes)
    decreases |s|
  {
    if s == [] || !IsDigit(s[0]) then (sofar, s) else ReadDigits(s[1..], sofar * 10 + (s[0] - 0x30))
  }

  lemma {:induction false} ReadDigitsShrinks(s: Bytes, sofar: nat)
    ensures |ReadDigits(s, sofar).1| <= |s|
    decreases |s|
  {
    if s != [] && IsDigit(s[0]) { ReadDigitsShrinks(s[1..], sofar * 10 + (s[0] - 0x30)); }
  }

  /** Digits without a needless leading zero. */
  function ReadNat(s: Bytes): (r: Option<(nat, Bytes)>)
    ensures r.Some? ==> |r.value.1| < |s|
  {
    if s == [] || !IsDigit(s[0]) then None
    else if s[0] == 0x30 then (if |s| > 1 && IsDigit(s[1]) then None else Some((0, s[1..])))
    else ReadDigitsShrinks(s[1..], s[0] - 0x30); Some(ReadDigits(s[1..], s[0] - 0x30))
  }

  /** The characters of a string up to its closing quote. */
  function ReadText(s: Bytes): (r: Option<(Text, Bytes)>)
    ensures r.Some? ==> |r.value.1| < |s|
    decreases |s|
  {
    if s == [] then None
    else if s[0] == 0x22 then Some(([], s[1..]))
    else
      match ReadChar(s)
      case None => None
      case Some((c, n)) =>
        if !(0 <= c < 0x11_0000) || 0xD800 <= c < 0xE000 then None
        else
          match ReadText(s[n..])
          case None => None
          case Some((text, rest)) => Some(([c] + text, rest))
  }

  function ReadValue(s: Bytes): (r: Option<(Json, Bytes)>)
    ensures r.Some? ==> |r.value.1| < |s|
    decreases |s|, 0
  {
    if StartsWith(s, [0x6E, 0x75, 0x6C, 0x6C]) then Some((Null, s[4..]))
    else if StartsWith(s, [0x74, 0x72, 0x75, 0x65]) then Some((Bool(true), s[4..]))
    else if StartsWith(s, [0x66, 0x61, 0x6C, 0x73, 0x65]) then Some((Bool(false), s[5..]))
    else if s == [] then None
    else if s[0] == 0x22 then
      match ReadText(s[1..]) case None => None case Some((text, rest)) => Some((Str(text), rest))
    else if s[0] == 0x2D then
      match ReadNat(s[1..]) case None => None case Some((n, rest)) => Some((Num(0 - n), rest))
    else if IsDigit(s[0]) then
      match ReadNat(s) case None => None case Some((n, rest)) => Some((Num(n), rest))
    else if StartsWith(s, [0x5B, 0x5D]) then Some((Arr([]), s[2..]))
    else if s[0] == 0x5B then
      match ReadItems(s[1..]) case None => None case Some((items, rest)) => Some((Arr(items), rest))
    else if StartsWith(s, [0x7B, 0x7D]) then Some((Obj([]), s[2..]))
    else if s[0] == 0x7B then
      match ReadFields(s[1..]) case None => None case Some((fields, rest)) => Some((Obj(fields), rest))
    else None
  }

  /** One or more items, commas between them, up to the closing bracket. */
  function ReadItems(s: Bytes): (r: Option<(seq<Json>, Bytes)>)
    ensures r.Some? ==> |r.value.1| < |s|
    decreases |s|, 1
  {
    match ReadValue(s)
    case None => None
    case Some((v, rest)) =>
      if rest == [] then None
      else if rest[0] == 0x5D then Some(([v], rest[1..]))
      else if rest[0] != 0x2C then None
      else
        match ReadItems(rest[1..])
        case None => None
        case Some((more, rest')) => Some(([v] + more, rest'))
  }

  /** A quoted name, a colon and a value. */
  function ReadField(s: Bytes): (r: Option<(Field, Bytes)>)
    ensures r.Some? ==> |r.value.1| < |s|
    decreases |s|, 1
  {
    if s == [] || s[0] != 0x22 then None
    else
      match ReadText(s[1..])
      case None => None
      case Some((key, rest)) =>
        if rest == [] || rest[0] != 0x3A then None
        else
          match ReadValue(rest[1..])
          case None => None
          case Some((v, rest')) => Some((Field(key, v), rest'))
  }

  function ReadFields(s: Bytes): (r: Option<(seq<Field>, Bytes)>)
    ensures r.Some? ==> |r.value.1| < |s|
    decreases |s|, 2
  {
    match ReadField(s)
    case None => None
    case Some((f, rest)) =>
      if rest == [] then None
      else if rest[0] == 0x7D then Some(([f], rest[1..]))
      else if rest[0] != 0x2C then None
      else
        match ReadFields(rest[1..])
        case None => None
        case Some((more, rest')) => Some(([f] + more, rest'))
  }

  // ----- Numbers and strings read back -----

  /** What follows is no digit. */
  predicate Stops(s: Bytes) {
    s == [] || !IsDigit(s[0])
  }

  lemma {:induction false} ReadDigitsPrinted(digits: string, sofar: nat, rest: Bytes)
    requires Decimal.AllDigits(digits) && Stops(rest)
    ensures ReadDigits(Ascii(digits) + rest, sofar) == (sofar * Power(|digits|) + Decimal.Value(digits), rest)
    decreases |digits|
  {
    var s := Ascii(digits) + rest;
    if digits == [] {
      assert s == rest;
    } else {
      assert Decimal.IsDigit(digits[0]) && s[0] == digits[0] as int;
      assert s[1..] == Ascii(digits[1..]) + rest;
      ReadDigitsPrinted(digits[1..], sofar * 10 + (s[0] - 0x30), rest);
      ValueFromFront(digits);
      Rescale(sofar, s[0] - 0x30, Power(|digits| - 1));
    }
  }

  function Power(k: nat): nat {
    if k == 0 then 1 else 10 * Power(k - 1)
  }

  lemma Rescale(sofar: nat, d: nat, p: nat)
    ensures (sofar * 10 + d) * p == sofar * (10 * p) + d * p
  {
  }

  lemma ShiftValue(d: nat, p: nat, v: nat, u: nat)
    ensures (d * p + v) * 10 + u == d * (10 * p) + (v * 10 + u)
  {
  }

  lemma {:induction false} ValueFromFront(digits: string)
    requires Decimal.AllDigits(digits) && digits != []
    ensures Decimal.Value(digits) == (digits[0] - '0') as int * Power(|digits| - 1) + Decimal.Value(digits[1..])
    decreases |digits|
  {
    var n := |digits| - 1;
    if n == 0 {
      assert digits[..0] == [];
    } else {
      var init, last := digits[..n], (digits[n] - '0') as int;
      ValueFromFront(init);
      assert digits[1..][..n - 1] == init[1..] && digits[1..][n - 1] == digits[n];
      ShiftValue((digits[0] - '0') as int, Power(n - 1), Decimal.Value(init[1..]), last);
      assert Decimal.Value(digits[1..]) == Decimal.Value(init[1..]) * 10 + last;
      assert Decimal.Value(digits) == Decimal.Value(init) * 10 + last;
    }
  }

  lemma ReadNatPrinted(n: nat, rest: Bytes)
    requires Stops(rest)
    ensures ReadNat(Ascii(Decimal.Digits(n)) + rest) == Some((n, rest))
  {
    var digits := Decimal.Digits(n);
    Decimal.DigitsRead(n);
    assert Decimal.IsDigit(digits[0]);
    if n == 0 {
      assert digits == "0" && (Ascii("0") + rest)[1..] == rest;
    } else {
      DigitsAreNat(digits, rest);
    }
  }

  lemma DigitsAreNat(digits: string, rest: Bytes)
    requires Decimal.AllDigits(digits) && digits != [] && digits[0] != '0' && Stops(rest)
    ensures ReadNat(Ascii(digits) + rest) == Some((Decimal.Value(digits), rest))
  {
    var s := Ascii(digits) + rest;
    assert Decimal.IsDigit(digits[0]) && s[0] == digits[0] as int;
    ReadDigitsPrinted(digits, 0, rest);
    assert ReadDigits(s, 0) == ReadDigits(s[1..], s[0] - 0x30);
  }

  lemma {:induction false} ReadTextPrinted(text: Text, rest: Bytes)
    ensures ReadText(Chars(text) + [0x22] + rest) == Some((text, rest))
  {
    var s := Chars(text) + [0x22] + rest;
    CharsStart(text, rest);
    if text != [] {
      var more := Chars(text[1..]) + [0x22] + rest;
      EscapeReads(text[0], more);
      assert s[|Escape(text[0])|..] == more;
      ReadTextPrinted(text[1..], rest);
      assert [text[0]] + text[1..] == text;
    }
  }

  // ----- Values read back -----

  lemma NotWord(s: Bytes, p: Bytes)
    requires s != [] && p != [] && s[0] != p[0]
    ensures !StartsWith(s, p)
  {
  }

  /** A text that starts with none of the letters of the three words. */
  lemma NoWords(s: Bytes)
    requires s != [] && s[0] != 0x6E && s[0] != 0x74 && s[0] != 0x66
    ensures !StartsWith(s, [0x6E, 0x75, 0x6C, 0x6C]) && !StartsWith(s, [0x74, 0x72, 0x75, 0x65])
    ensures !StartsWith(s, [0x66, 0x61, 0x6C, 0x73, 0x65])
  {
    NotWord(s, [0x6E, 0x75, 0x6C, 0x6C]);
    NotWord(s, [0x74, 0x72, 0x75, 0x65]);
    NotWord(s, [0x66, 0x61, 0x6C, 0x73, 0x65]);
  }

  lemma WordReads(v: Json, rest: Bytes)
    requires v.Null? || v.Bool?
    ensures ReadValue(Print(v) + rest) == Some((v, rest))
  {
    var s := Print(v) + rest;
    assert s[..|Print(v)|] == Print(v) && s[|Print(v)|..] == rest;
    if v.Bool? { NotWord(s, [0x6E, 0x75, 0x6C, 0x6C]); }
    if v == Bool(false) { NotWord(s, [0x74, 0x72, 0x75, 0x65]); }
  }

  lemma NumReads(n: int, rest: Bytes)
    requires Stops(rest)
    ensures ReadValue(Print(Num(n)) + rest) == Some((Num(n), rest))
  {
    var digits := Ascii(Decimal.Digits(Magnitude(n)));
    var s := Print(Num(n)) + rest;
    ReadNatPrinted(Magnitude(n), rest);
    FirstByte(Num(n));
    assert s[0] == Print(Num(n))[0];
    NoWords(s);
    if n < 0 {
      assert s == [0x2D] + (digits + rest) && s[1..] == digits + rest;
    } else {
      assert s == digits + rest && Decimal.IsDigit(Decimal.Digits(n)[0]);
    }
  }

  lemma StrReads(text: Text, rest: Bytes)
    ensures ReadValue(Print(Str(text)) + rest) == Some((Str(text), rest))
  {
    var s := Print(Str(text)) + rest;
    ReadTextPrinted(text, rest);
    assert s == [0x22] + (Chars(text) + [0x22] + rest);
    NoWords(s);
  }

  /** A bracketed list behind its opening byte, or the empty one. */
  lemma OpensList(open: Byte, close: Byte, inner: Bytes, rest: Bytes)
    ensures var s := [open] + inner + [close] + rest;
            && s[0] == open
            && (inner == [] ==> StartsWith(s, [open, close]) && s[2..] == rest)
            && (inner != [] && inner[0] != close ==> !StartsWith(s, [open, close]))
            && s[1..] == inner + [close] + rest
  {
    var s := [open] + inner + [close] + rest;
    if inner == [] { assert s[..2] == [open, close]; } else { assert s[1] == inner[0]; }
  }

  lemma {:induction false} PrintReads(v: Json, rest: Bytes)
    requires Stops(rest)
    ensures ReadValue(Print(v) + rest) == Some((v, rest))
    decreases v
  {
    match v
    case Null => WordReads(v, rest);
    case Bool(_) => WordReads(v, rest);
    case Num(n) => NumReads(n, rest);
    case Str(text) => StrReads(text, rest);
    case Arr(items) => ArrReads(items, rest);
    case Obj(fields) => ObjReads(fields, rest);
  }

  lemma {:induction false} ArrReads(items: seq<Json>, rest: Bytes)
    ensures ReadValue(Print(Arr(items)) + rest) == Some((Arr(items), rest))
    decreases items, 1
  {
    var inner := if items == [] then [] else Print(items[0]) + MoreItems(items[1..]);
    var s := Print(Arr(items)) + rest;
    OpensList(0x5B, 0x5D, inner, rest);
    NoWords(s);
    if items != [] {
      FirstByte(items[0]);
      assert inner[0] == Print(items[0])[0];
      ItemsRead(items, rest);
    }
  }

  lemma Behind3(a: Bytes, b: Bytes, close: Byte, rest: Bytes)
    ensures a + b + [close] + rest == a + (b + [close] + rest)
  {
  }

  lemma {:induction false} ItemsRead(items: seq<Json>, rest: Bytes)
    requires items != []
    ensures ReadItems(Print(items[0]) + MoreItems(items[1..]) + [0x5D] + rest) == Some((items, rest))
    decreases items, 0
  {
    var behind := MoreItems(items[1..]) + [0x5D] + rest;
    Behind3(Print(items[0]), MoreItems(items[1..]), 0x5D, rest);
    MoreItemsEnd(items[1..], rest);
    PrintReads(items[0], behind);
    if |items| == 1 {
      assert behind[1..] == rest && items == [items[0]];
    } else {
      var more := items[1..];
      DropComma(0x2C, Print(more[0]), MoreItems(more[1..]), 0x5D, rest);
      Behind3(Print(more[0]), MoreItems(more[1..]), 0x5D, rest);
      ItemsRead(more, rest);
      assert items == [items[0]] + more;
    }
  }

  lemma {:induction false} ObjReads(fields: seq<Field>, rest: Bytes)
    ensures ReadValue(Print(Obj(fields)) + rest) == Some((Obj(fields), rest))
    decreases fields, 1
  {
    var inner := if fields == [] then [] else PrintField(fields[0]) + MoreFields(fields[1..]);
    var s := Print(Obj(fields)) + rest;
    OpensList(0x7B, 0x7D, inner, rest);
    NoWords(s);
    if fields != [] {
      FieldStarts(fields[0]);
      assert inner[0] == PrintField(fields[0])[0];
      FieldsRead(fields, rest);
    }
  }

  lemma {:induction false} FieldReads(f: Field, rest: Bytes)
    requires Stops(rest)
    ensures ReadField(PrintField(f) + rest) == Some((f, rest))
    decreases f
  {
    var value := Print(f.value) + rest;
    var behind := [0x3A] + value;
    FieldText(Chars(f.key), Print(f.value), rest);
    ReadTextPrinted(f.key, behind);
    assert behind[1..] == value;
    PrintReads(f.value, rest);
  }

  /** A field's bytes behind its opening quote. */
  lemma FieldText(key: Bytes, value: Bytes, rest: Bytes)
    ensures var s := [0x22] + key + [0x22] + [0x3A] + value + rest;
            s[0] == 0x22 && s[1..] == key + [0x22] + ([0x3A] + (value + rest))
  {
  }

  lemma {:induction false} FieldsRead(fields: seq<Field>, rest: Bytes)
    requires fields != []
    ensures ReadFields(PrintField(fields[0]) + MoreFields(fields[1..]) + [0x7D] + rest) == Some((fields, rest))
    decreases fields, 0
  {
    var behind := MoreFields(fields[1..]) + [0x7D] + rest;
    Behind3(PrintField(fields[0]), MoreFields(fields[1..]), 0x7D, rest);
    MoreFieldsEnd(fields[1..], rest);
    FieldReads(fields[0], behind);
    if |fields| == 1 {
      assert behind[1..] == rest && fields == [fields[0]];
    } else {
      var more := fields[1..];
      DropComma(0x2C, PrintField(more[0]), MoreFields(more[1..]), 0x7D, rest);
      Behind3(PrintField(more[0]), MoreFields(more[1..]), 0x7D, rest);
      FieldsRead(more, rest);
      assert fields == [fields[0]] + more;
    }
  }

  // ----- Canonical bytes are JSON -----

  lemma AscendingIsDistinct(keys: seq<Text>)
    requires Ascending(keys)
    ensures Distinct(keys)
  {
    forall i, j | 0 <= i < j < |keys| ensures keys[i] != keys[j] { KeysAreOrdered(keys[i], keys[j]); }
  }

  /** The canonical form of a value is the same value. */
  lemma {:induction false} NormalIsSame(v: Json)
    requires WellFormed(v)
    ensures Same(v, Normalize(v))
    decreases v
  {
    match v
    case Arr(items) =>
      forall i | 0 <= i < |items| ensures Same(items[i], NormalItems(items)[i]) {
        NormalItemsAt(items, i);
        NormalIsSame(items[i]);
      }
    case Obj(fields) =>
      var keys, r := SortKeys(Keys(fields)), Normalize(v).fields;
      NormalKeys(fields);
      forall k ensures HasKey(fields, k) <==> HasKey(r, k) { assert k in keys <==> k in Keys(fields); }
      forall x | x in fields ensures HasKey(r, x.key) && Same(x.value, Get(r, x.key)) {
        GetIsIt(fields, x);
        NormalValue(fields, x.key);
        NormalIsSame(x.value);
      }
    case _ =>
  }

  lemma NormalKeys(fields: seq<Field>)
    requires Distinct(Keys(fields))
    ensures var r := Normalize(Obj(fields)).fields;
            Keys(r) == SortKeys(Keys(fields)) && Distinct(Keys(r)) && forall k :: k in Keys(r) <==> k in Keys(fields)
  {
    var keys, r := SortKeys(Keys(fields)), Normalize(Obj(fields)).fields;
    SortKeysSorts(Keys(fields));
    AscendingIsDistinct(keys);
    if fields != [] { NormalFieldAt(fields, 0); }
    forall i | 0 <= i < |fields| ensures Keys(r)[i] == keys[i] { NormalFieldAt(fields, i); }
    assert Keys(r) == keys;
  }

  lemma NormalValue(fields: seq<Field>, k: Text)
    requires Distinct(Keys(fields)) && HasKey(fields, k)
    ensures var r := Normalize(Obj(fields)).fields; HasKey(r, k) && Get(r, k) == Normalize(Get(fields, k))
  {
    var keys, r := SortKeys(Keys(fields)), Normalize(Obj(fields)).fields;
    SortKeysSorts(Keys(fields));
    NormalKeys(fields);
    var i :| 0 <= i < |keys| && keys[i] == k;
    NormalFieldAt(fields, i);
    GetIsIt(r, r[i]);
  }

  /** Canonical bytes are a JSON text: the reader takes all of them and gets the very value
      back, objects read as maps. */
  lemma CanonicalBytesRead(v: Json) returns (w: Json)
    requires WellFormed(v)
    ensures ReadValue(Canon(v)) == Some((w, [])) && Same(v, w)
  {
    w := Normalize(v);
    assert Canon(v) + [] == Canon(v);
    PrintReads(w, []);
    NormalIsSame(v);
  }
}
