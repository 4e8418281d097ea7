/** The writers that append canonical bytes to a buffer. */
module CanonicalWriter {
  import opened Common
  import opened Canonical
  import opened CanonicalForm
  import Decimal

  /** What is still to be written of an array after its first `i` items. */
  ghost function ItemsFrom(items: seq<Json>, i: nat): Bytes
    requires i <= |items|
  {
    (if items == [] then []
     else if i == 0 then Print(items[0]) + MoreItems(items[1..])
     else MoreItems(items[i..])) + [CLOSE_ARR]
  }

  ghost function FieldsFrom(fields: seq<Field>, i: nat): Bytes
    requires i <= |fields|
  {
    (if fields == [] then []
     else if i == 0 then PrintField(fields[0]) + MoreFields(fields[1..])
     else MoreFields(fields[i..])) + [CLOSE_OBJ]
  }

  function Separator(i: nat): Bytes {
    if i > 0 then [COMMA] else []
  }

  lemma Regroup3(w: Bytes, a: Bytes, b: Bytes, c: Bytes)
    ensures w + (a + b + c) == w + a + b + c
  {
  }

  lemma Regroup2(a: Bytes, b: Bytes, more: Bytes, close: Byte)
    ensures a + b + more + [close] == a + b + (more + [close])
  {
  }

  lemma ItemNext(w: Bytes, items: seq<Json>, i: nat)
    requires i < |items|
    ensures w + ItemsFrom(items, i) == w + Separator(i) + Print(items[i]) + ItemsFrom(items, i + 1)
  {
    assert items[i..][1..] == items[i + 1..];
    Regroup2(Separator(i), Print(items[i]), MoreItems(items[i + 1..]), CLOSE_ARR);
    assert Separator(0) + Print(items[0]) == Print(items[0]);
    Regroup3(w, Separator(i), Print(items[i]), ItemsFrom(items, i + 1));
  }

  lemma FieldNext(w: Bytes, fields: seq<Field>, i: nat)
    requires i < |fields|
    ensures w + FieldsFrom(fields, i) == w + Separator(i) + PrintField(fields[i]) + FieldsFrom(fields, i + 1)
  {
    assert fields[i..][1..] == fields[i + 1..];
    Regroup2(Separator(i), PrintField(fields[i]), MoreFields(fields[i + 1..]), CLOSE_OBJ);
    assert Separator(0) + PrintField(fields[0]) == PrintField(fields[0]);
    Regroup3(w, Separator(i), PrintField(fields[i]), FieldsFrom(fields, i + 1));
  }

  lemma FieldPieces(w: Bytes, key: Text, value: Json)
    ensures w + Quoted(key) + [COLON] + Print(value) == w + PrintField(Field(key, value))
  {
    var q, p := Quoted(key), Print(value);
    assert w + q + [COLON] + p == w + (q + [COLON] + p);
  }

  lemma NoMoreFields(fields: seq<Field>)
    ensures FieldsFrom(fields, |fields|) == [CLOSE_OBJ]
  {
  }

  lemma CharNext(w: Bytes, text: Text, i: nat)
    requires i < |text|
    ensures w + Chars(text[i..]) == w + Escape(text[i]) + Chars(text[i + 1..])
  {
    assert text[i..][1..] == text[i + 1..];
  }

  class Writer {
    var out: Bytes

    constructor ()
      ensures out == []
    {
      out := [];
    }

    method WriteAll(bytes: Bytes)
      modifies this
      ensures out == old(out) + bytes
    {
      out := out + bytes;
    }

    method WriteChar(c: Scalar)
      modifies this
      ensures out == old(out) + Escape(c)
    {
      if c == 0x22 { WriteAll([BACKSLASH, 0x22]); }
      else if c == 0x5C { WriteAll([BACKSLASH, BACKSLASH]); }
      else if c == 0x0A { WriteAll([BACKSLASH, 0x6E]); }
      else if c == 0x0D { WriteAll([BACKSLASH, 0x72]); }
      else if c == 0x09 { WriteAll([BACKSLASH, 0x74]); }
      else if c == 0x08 { WriteAll([BACKSLASH, 0x62]); }
      else if c == 0x0C { WriteAll([BACKSLASH, 0x66]); }
      else if c < 0x20 { WriteAll([BACKSLASH, 0x75, 0x30, 0x30, HexDigit(c / 16), HexDigit(c % 16)]); }
      else { WriteAll(Utf8(c)); }
    }

    method WriteString(text: Text)
      modifies this
      ensures out == old(out) + Quoted(text)
    {
      WriteAll([QUOTE]);
      for i := 0 to |text|
        invariant out + Chars(text[i..]) == old(out) + [QUOTE] + Chars(text)
      {
        CharNext(out, text, i);
        WriteChar(text[i]);
      }
      assert out == old(out) + [QUOTE] + Chars(text);
      WriteAll([QUOTE]);
      assert out == old(out) + Quoted(text);
    }

    method WriteNumber(n: int)
      modifies this
      ensures out == old(out) + Decimals(n)
    {
      if n < 0 { WriteAll([MINUS]); }
      WriteAll(Ascii(Decimal.Digits(Magnitude(n))));
    }

    method WriteValue(v: Json)
      requires WellFormed(v)
      modifies this
      ensures out == old(out) + Canon(v)
      decreases v, 0
    {
      match v
      case Null => WriteAll(Ascii("null"));
      case Bool(b) => WriteAll(Ascii(if b then "true" else "false"));
      case Num(n) => WriteNumber(n);
      case Str(s) => WriteString(s);
      case Arr(items) => WriteArray(items);
      case Obj(fields) => WriteObject(fields);
    }

    method WriteArray(items: seq<Json>)
      requires WellFormed(Arr(items))
      modifies this
      ensures out == old(out) + Canon(Arr(items))
      decreases items
    {
      ghost var r := NormalItems(items);
      WriteAll([OPEN_ARR]);
      assert out + ItemsFrom(r, 0) == old(out) + Canon(Arr(items));
      for i := 0 to |items|
        invariant out + ItemsFrom(r, i) == old(out) + Canon(Arr(items))
      {
        NormalItemsAt(items, i);
        ItemNext(out, r, i);
        WriteSeparator(i);
        WriteValue(items[i]);
      }
      WriteAll([CLOSE_ARR]);
    }

    method WriteObject(fields: seq<Field>)
      requires WellFormed(Obj(fields))
      modifies this
      ensures out == old(out) + Canon(Obj(fields))
      decreases fields, 1
    {
      var keys := SortKeys(Keys(fields));
      ghost var r := Normalize(Obj(fields)).fields;
      ObjectShape(fields);
      ObjectStarts(out, r);
      WriteAll([OPEN_OBJ]);
      WriteEntries(fields, keys, r);
      WriteAll([CLOSE_OBJ]);
    }

    method WriteEntries(fields: seq<Field>, keys: seq<Text>, ghost r: seq<Field>)
      requires |keys| == |r| && forall i :: 0 <= i < |keys| ==> EntryFits(fields, keys[i], r[i])
      modifies this
      ensures out + [CLOSE_OBJ] == old(out) + FieldsFrom(r, 0)
      decreases fields, 0
    {
      ghost var whole := out + FieldsFrom(r, 0);
      for i := 0 to |keys|
        invariant out + FieldsFrom(r, i) == whole
      {
        assert EntryFits(fields, keys[i], r[i]);
        WriteEntry(keys[i], Get(fields, keys[i]), r, i);
      }
      NoMoreFields(r);
    }

    method WriteEntry(key: Text, value: Json, ghost r: seq<Field>, i: nat)
      requires WellFormed(value) && i < |r| && r[i] == Field(key, Normalize(value))
      modifies this
      ensures out + FieldsFrom(r, i + 1) == old(out) + FieldsFrom(r, i)
      decreases value, 1
    {
      FieldNext(out, r, i);
      WriteSeparator(i);
      FieldPieces(out, key, Normalize(value));
      WriteString(key);
      WriteAll([COLON]);
      WriteValue(value);
    }

    method WriteSeparator(i: nat)
      modifies this
      ensures out == old(out) + Separator(i)
    {
      if i > 0 { WriteAll([COMMA]); }
    }
  }

  lemma ObjectStarts(w: Bytes, r: seq<Field>)
    ensures w + [OPEN_OBJ] + FieldsFrom(r, 0) == w + Print(Obj(r))
  {
  }

  /** `f` is the canonical field of `key`. */
  ghost predicate EntryFits(fields: seq<Field>, key: Text, f: Field) {
    && HasKey(fields, key) && Field(key, Get(fields, key)) in fields && WellFormed(Get(fields, key))
    && f == Field(key, Normalize(Get(fields, key)))
  }

  lemma ObjectShape(fields: seq<Field>)
    requires WellFormed(Obj(fields))
    ensures var keys, r := SortKeys(Keys(fields)), Normalize(Obj(fields)).fields;
            |keys| == |fields| == |r| && forall i :: 0 <= i < |keys| ==> EntryFits(fields, keys[i], r[i])
  {
    SortKeysSorts(Keys(fields));
    if fields != [] { NormalFieldAt(fields, 0); }
    forall i | 0 <= i < |fields| ensures EntryFits(fields, SortKeys(Keys(fields))[i], Normalize(Obj(fields)).fields[i]) {
      NormalFieldAt(fields, i);
    }
  }

  method Canonicalize(v: Json) returns (bytes: Bytes)
    requires WellFormed(v)
    ensures bytes == Canon(v)
  {
    var w := new Writer();
    w.WriteValue(v);
    bytes := w.out;
  }
}
