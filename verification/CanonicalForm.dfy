/** The canonical form of a JSON value: objects are maps, so their keys are sorted before
    printing. The printed bytes are then a complete invariant of the value. */
module CanonicalForm {
  import opened Common
  import opened Canonical

  // ----- Objects as maps -----

  function Keys(fields: seq<Field>): (keys: seq<Text>)
    ensures |keys| == |fields| && forall i :: 0 <= i < |fields| ==> keys[i] == fields[i].key
  {
    seq(|fields|, i requires 0 <= i < |fields| => fields[i].key)
  }

  predicate HasKey(fields: seq<Field>, k: Text) {
    k in Keys(fields)
  }

  /** Look a key up. */
  function Get(fields: seq<Field>, k: Text): (v: Json)
    requires HasKey(fields, k)
    ensures Field(k, v) in fields
  {
    if fields[0].key == k then
      assert fields[0] == Field(k, fields[0].value);
      fields[0].value
    else
      assert fields == [fields[0]] + fields[1..];
      Get(fields[1..], k)
  }

  /** As the parser builds them: no object repeats a key, at any depth. */
  ghost predicate WellFormed(v: Json)
    decreases v
  {
    match v
    case Arr(items) => forall x :: x in items ==> WellFormed(x)
    case Obj(fields) => Distinct(Keys(fields)) && forall f :: f in fields ==> WellFormed(f.value)
    case _ => true
  }

  /** Equal as values: arrays item by item, objects as maps. */
  ghost predicate Same(a: Json, b: Json)
    decreases a
  {
    match a
    case Arr(xs) => b.Arr? && |xs| == |b.items| && forall i :: 0 <= i < |xs| ==> Same(xs[i], b.items[i])
    case Obj(f) =>
      && b.Obj?
      && (forall k :: HasKey(f, k) <==> HasKey(b.fields, k))
      && forall x :: x in f ==> HasKey(b.fields, x.key) && Same(x.value, Get(b.fields, x.key))
    case _ => a == b
  }

  lemma {:induction false} GetIsIt(fields: seq<Field>, f: Field)
    requires Distinct(Keys(fields)) && f in fields
    ensures HasKey(fields, f.key) && Get(fields, f.key) == f.value
  {
    var i :| 0 <= i < |fields| && fields[i] == f;
    assert Keys(fields)[i] == f.key;
    var g := Field(f.key, Get(fields, f.key));
    var j :| 0 <= j < |fields| && fields[j] == g;
    assert Keys(fields)[j] == f.key;
  }

  // ----- The canonical form -----

  function Normalize(v: Json): Json
    decreases v
  {
    match v
    case Arr(items) => Arr(NormalItems(items))
    case Obj(fields) => Obj(Arranged(NormalFields(fields), SortKeys(Keys(fields))))
    case _ => v
  }

  function NormalItems(items: seq<Json>): (r: seq<Json>)
    ensures |r| == |items|
    decreases items
  {
    if items == [] then [] else [Normalize(items[0])] + NormalItems(items[1..])
  }

  function NormalFields(fields: seq<Field>): (r: seq<Field>)
    ensures Keys(r) == Keys(fields)
    decreases fields
  {
    if fields == [] then []
    else
      var r := [Field(fields[0].key, Normalize(fields[0].value))] + NormalFields(fields[1..]);
      assert forall i :: 0 < i < |r| ==> Keys(r)[i] == Keys(fields[1..])[i - 1] == Keys(fields)[i];
      r
  }

  /** The fields of the listed keys, in that order. */
  function Arranged(fields: seq<Field>, keys: seq<Text>): (r: seq<Field>)
    ensures |r| <= |keys|
  {
    if keys == [] then []
    else if !HasKey(fields, keys[0]) then Arranged(fields, keys[1..])
    else [Field(keys[0], Get(fields, keys[0]))] + Arranged(fields, keys[1..])
  }

  /** `canonicalize`. */
  function Canon(v: Json): Bytes {
    Print(Normalize(v))
  }

  lemma {:induction false} NormalItemsAt(items: seq<Json>, i: nat)
    requires i < |items|
    ensures NormalItems(items)[i] == Normalize(items[i])
  {
    if i > 0 { NormalItemsAt(items[1..], i - 1); }
  }

  lemma {:induction false} NormalGet(fields: seq<Field>, k: Text)
    requires HasKey(fields, k)
    ensures HasKey(NormalFields(fields), k) && Get(NormalFields(fields), k) == Normalize(Get(fields, k))
  {
    var r := NormalFields(fields);
    assert r[0].key == Keys(r)[0] == fields[0].key;
    assert r[1..] == NormalFields(fields[1..]);
    if fields[0].key != k {
      assert fields == [fields[0]] + fields[1..];
      assert k in Keys(fields[1..]);
      NormalGet(fields[1..], k);
    }
  }

  lemma {:induction false} ArrangedAt(fields: seq<Field>, keys: seq<Text>, i: nat)
    requires i < |keys| && forall k :: k in keys ==> HasKey(fields, k)
    ensures |Arranged(fields, keys)| == |keys| && Arranged(fields, keys)[i] == Field(keys[i], Get(fields, keys[i]))
  {
    if i > 0 { ArrangedAt(fields, keys[1..], i - 1); } else if |keys| > 1 { ArrangedAt(fields, keys[1..], 0); }
  }

  /** The fields of a canonical object: sorted keys, each with its canonical value. */
  lemma NormalFieldAt(fields: seq<Field>, i: nat)
    requires Distinct(Keys(fields)) && i < |fields|
    ensures var keys, r := SortKeys(Keys(fields)), Normalize(Obj(fields)).fields;
            && Ascending(keys) && |keys| == |r| == |fields| && HasKey(fields, keys[i])
            && r[i] == Field(keys[i], Normalize(Get(fields, keys[i])))
  {
    var keys := SortKeys(Keys(fields));
    SortKeysSorts(Keys(fields));
    assert forall k :: k in keys ==> HasKey(NormalFields(fields), k);
    ArrangedAt(NormalFields(fields), keys, i);
    assert keys[i] in keys;
    NormalGet(fields, keys[i]);
  }

  // ----- Equal values have equal forms, and only they -----

  lemma {:induction false} SameNormalizes(a: Json, b: Json)
    requires WellFormed(a) && WellFormed(b) && Same(a, b)
    ensures Normalize(a) == Normalize(b)
    decreases a
  {
    match a
    case Arr(xs) =>
      forall i | 0 <= i < |xs| ensures NormalItems(xs)[i] == NormalItems(b.items)[i] {
        NormalItemsAt(xs, i);
        NormalItemsAt(b.items, i);
        assert b.items[i] in b.items;
        SameNormalizes(xs[i], b.items[i]);
      }
      assert NormalItems(xs) == NormalItems(b.items);
    case Obj(f) => SameObjects(f, b.fields);
    case _ =>
  }

  lemma {:induction false} SameObjects(f: seq<Field>, g: seq<Field>)
    requires WellFormed(Obj(f)) && WellFormed(Obj(g)) && Same(Obj(f), Obj(g))
    ensures Normalize(Obj(f)) == Normalize(Obj(g))
    decreases f
  {
    SameKeysSort(f, g);
    var r, s := Normalize(Obj(f)).fields, Normalize(Obj(g)).fields;
    if f != [] { NormalFieldAt(f, 0); NormalFieldAt(g, 0); }
    forall i | 0 <= i < |f| ensures r[i] == s[i] {
      NormalFieldAt(f, i);
      NormalFieldAt(g, i);
      var k := SortKeys(Keys(f))[i];
      assert Field(k, Get(f, k)) in f && Field(k, Get(g, k)) in g;
      SameNormalizes(Get(f, k), Get(g, k));
    }
    assert r == s;
  }

  lemma SameKeysSort(f: seq<Field>, g: seq<Field>)
    requires Distinct(Keys(f)) && Distinct(Keys(g)) && forall k :: HasKey(f, k) <==> HasKey(g, k)
    ensures SortKeys(Keys(f)) == SortKeys(Keys(g)) && |f| == |g|
  {
    SortKeysSorts(Keys(f));
    SortKeysSorts(Keys(g));
    forall k ensures k in SortKeys(Keys(f)) <==> k in SortKeys(Keys(g)) { assert HasKey(f, k) <==> HasKey(g, k); }
    AscendingIsUnique(SortKeys(Keys(f)), SortKeys(Keys(g)));
  }

  lemma SameNormalKeys(f: seq<Field>, g: seq<Field>)
    requires Distinct(Keys(f)) && Distinct(Keys(g)) && Normalize(Obj(f)) == Normalize(Obj(g))
    ensures |f| == |g| && SortKeys(Keys(f)) == SortKeys(Keys(g)) && forall k :: HasKey(f, k) <==> HasKey(g, k)
  {
    SortKeysSorts(Keys(f));
    SortKeysSorts(Keys(g));
    if f != [] { NormalFieldAt(f, 0); }
    if g != [] { NormalFieldAt(g, 0); }
    forall i | 0 <= i < |f| ensures SortKeys(Keys(f))[i] == SortKeys(Keys(g))[i] {
      NormalFieldAt(f, i);
      NormalFieldAt(g, i);
    }
  }

  lemma {:induction false} NormalizedSame(a: Json, b: Json)
    requires WellFormed(a) && WellFormed(b) && Normalize(a) == Normalize(b)
    ensures Same(a, b)
    decreases a
  {
    match a
    case Arr(xs) =>
      forall i | 0 <= i < |xs| ensures Same(xs[i], b.items[i]) {
        NormalItemsAt(xs, i);
        NormalItemsAt(b.items, i);
        assert b.items[i] in b.items;
        NormalizedSame(xs[i], b.items[i]);
      }
    case Obj(f) =>
      SameNormalKeys(f, b.fields);
      forall x | x in f ensures HasKey(b.fields, x.key) && Same(x.value, Get(b.fields, x.key)) {
        GetIsIt(f, x);
        SortKeysSorts(Keys(f));
        var i :| 0 <= i < |f| && SortKeys(Keys(f))[i] == x.key;
        NormalFieldAt(f, i);
        NormalFieldAt(b.fields, i);
        assert Field(x.key, Get(b.fields, x.key)) in b.fields;
        NormalizedSame(x.value, Get(b.fields, x.key));
      }
    case _ =>
  }

  /** Canonical bytes are equal exactly when the values are. */
  lemma CanonIsExact(a: Json, b: Json)
    requires WellFormed(a) && WellFormed(b)
    ensures Canon(a) == Canon(b) <==> Same(a, b)
  {
    if Canon(a) == Canon(b) {
      assert Canon(a) + [] == Canon(b) + [];
      PrintIsUnique(Normalize(a), Normalize(b), [], []);
      NormalizedSame(a, b);
    }
    if Same(a, b) { SameNormalizes(a, b); }
  }
}
