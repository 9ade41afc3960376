/** Canonical JSON, twice. */
module CanonicalJson {
  // Canonical JSON as the signer (TypeScript) and the verifier (Rust) compute it:
  // objects re-keyed in sorted order at every depth, then printed compactly.

  import opened Text
  import opened Json
  import opened JsonText

  // --------------------------------------------------------- key orders

  /** The orders in which the two languages go through keys: `sort()` compares
      UTF-16 code units, a JavaScript object enumerates array indices first, and
      Rust compares strings by code point (which is UTF-8 byte order). */
  datatype Order = Utf16 | Enumeration | CodePoints

  function Units(s: string): seq<int> {
    if s == "" then [] else CharUnits(s[0]) + Units(s[1..])
  }

  function CharUnits(c: char): seq<int> {
    var p := c as int;
    if p < 0x10000 then [p]
    else [0xD800 + (p - 0x10000) / 0x400, 0xDC00 + (p - 0x10000) % 0x400]
  }

  function Points(s: string): (r: seq<int>)
    ensures |r| == |s| && forall i :: 0 <= i < |s| ==> r[i] == s[i] as int
  {
    seq(|s|, i requires 0 <= i < |s| => s[i] as int)
  }

  /** A property key that JavaScript treats as an array index. */
  predicate IsIndex(key: string) {
    && (forall i :: 0 <= i < |key| ==> IsDigit(key[i]))
    && key == NatText(ParseNat(key)) && ParseNat(key) < 0xFFFF_FFFF
  }

  /** Those are the numerals below 2^32 - 1, without leading zeros. */
  lemma IndexExactly(key: string)
    ensures IsIndex(key) <==> exists n: nat :: n <= 4_294_967_294 && key == NatText(n)
  {
    if IsIndex(key) {
      assert key == NatText(ParseNat(key));
    }
    if exists n: nat :: n <= 4_294_967_294 && key == NatText(n) {
      var n: nat :| n <= 4_294_967_294 && key == NatText(n);
      ParseOfNatText(n);
    }
  }

  function KeyCode(order: Order, key: string): seq<int> {
    match order
    case Utf16 => Units(key)
    case Enumeration => if IsIndex(key) then [0, ParseNat(key)] else [1] + Units(key)
    case CodePoints => Points(key)
  }

  predicate Lex(a: seq<int>, b: seq<int>) {
    if b == [] then false
    else a == [] || a[0] < b[0] || (a[0] == b[0] && Lex(a[1..], b[1..]))
  }

  predicate KeyLess(order: Order, a: string, b: string) { Lex(KeyCode(order, a), KeyCode(order, b)) }

  lemma {:induction false} LexTrichotomy(a: seq<int>, b: seq<int>)
    ensures Lex(a, b) || Lex(b, a) || a == b
    ensures !(Lex(a, b) && Lex(b, a)) && !Lex(a, a)
  {
    if a != [] && b != [] {
      LexTrichotomy(a[1..], b[1..]);
      assert a == [a[0]] + a[1..] && b == [b[0]] + b[1..];
    }
    if a != [] { LexTrichotomy(a[1..], a[1..]); }
  }

  lemma {:induction false} LexTransitive(a: seq<int>, b: seq<int>, c: seq<int>)
    requires Lex(a, b) && Lex(b, c)
    ensures Lex(a, c)
  {
    if a != [] && a[0] == b[0] && b[0] == c[0] { LexTransitive(a[1..], b[1..], c[1..]); }
  }

  lemma {:induction false} UnitsInjective(a: string, b: string)
    requires Units(a) == Units(b)
    ensures a == b
  {
    if a != "" && b != "" {
      var x, y := CharUnits(a[0]), CharUnits(b[0]);
      assert Units(a)[0] == x[0] && Units(b)[0] == y[0];
      CharUnitsInjective(a[0], b[0], Units(a[1..]), Units(b[1..]));
      UnitsInjective(a[1..], b[1..]);
      assert a == [a[0]] + a[1..] && b == [b[0]] + b[1..];
    }
  }

  lemma CharUnitsInjective(c: char, d: char, s: seq<int>, t: seq<int>)
    requires CharUnits(c) + s == CharUnits(d) + t
    ensures c == d && s == t
  {
    var x, y := CharUnits(c) + s, CharUnits(d) + t;
    assert x[0] == CharUnits(c)[0] && y[0] == CharUnits(d)[0];
    assert |CharUnits(c)| == 2 ==> x[1] == CharUnits(c)[1];
    assert |CharUnits(d)| == 2 ==> y[1] == CharUnits(d)[1];
    assert c == d;
    assert s == x[|CharUnits(c)|..] && t == y[|CharUnits(d)|..];
  }

  lemma KeyCodeInjective(order: Order, a: string, b: string)
    requires KeyCode(order, a) == KeyCode(order, b)
    ensures a == b
  {
    match order
    case Utf16 => UnitsInjective(a, b);
    case CodePoints =>
      assert forall i :: 0 <= i < |a| ==> Points(a)[i] == Points(b)[i];
    case Enumeration =>
      var x, y := KeyCode(order, a), KeyCode(order, b);
      assert x[0] == y[0];
      if IsIndex(a) {
        assert x[1] == y[1];
      } else {
        assert x[1..] == Units(a) && y[1..] == Units(b);
        UnitsInjective(a, b);
      }
  }

  /** Each order is a strict total order on keys. */
  lemma KeyOrderTotal(order: Order, a: string, b: string)
    ensures KeyLess(order, a, b) || KeyLess(order, b, a) || a == b
    ensures !(KeyLess(order, a, b) && KeyLess(order, b, a)) && !KeyLess(order, a, a)
  {
    hide KeyCode, Lex;
    LexTrichotomy(KeyCode(order, a), KeyCode(order, b));
    LexTrichotomy(KeyCode(order, a), KeyCode(order, a));
    if KeyCode(order, a) == KeyCode(order, b) { KeyCodeInjective(order, a, b); }
  }

  lemma KeyOrderTransitive(order: Order, a: string, b: string, c: string)
    requires KeyLess(order, a, b) && KeyLess(order, b, c)
    ensures KeyLess(order, a, c)
  {
    hide KeyCode, Lex;
    LexTransitive(KeyCode(order, a), KeyCode(order, b), KeyCode(order, c));
  }

  // ------------------------------------------------------------- sorting

  ghost predicate Ascending(order: Order, fs: seq<Field>) {
    forall i, j :: 0 <= i < j < |fs| ==> KeyLess(order, fs[i].key, fs[j].key)
  }

  /** The place of one key in an object enumerated in the given order. */
  function Insert(order: Order, f: Field, fs: seq<Field>): seq<Field> {
    if fs == [] || KeyLess(order, f.key, fs[0].key) then [f] + fs
    else [fs[0]] + Insert(order, f, fs[1..])
  }

  function SortFields(order: Order, fs: seq<Field>): seq<Field> {
    if fs == [] then []
    else Insert(order, fs[|fs| - 1], SortFields(order, fs[..|fs| - 1]))
  }

  lemma {:induction false} InsertMembers(order: Order, f: Field, fs: seq<Field>)
    ensures |Insert(order, f, fs)| == |fs| + 1
    ensures forall g :: g in Insert(order, f, fs) <==> g == f || g in fs
  {
    hide KeyLess;
    if fs != [] && !KeyLess(order, f.key, fs[0].key) {
      InsertMembers(order, f, fs[1..]);
      assert fs == [fs[0]] + fs[1..];
    }
  }

  ghost predicate KeyFree(fs: seq<Field>, key: string) { forall g :: g in fs ==> g.key != key }

  lemma {:induction false} InsertAscends(order: Order, f: Field, fs: seq<Field>)
    requires Ascending(order, fs) && KeyFree(fs, f.key)
    ensures Ascending(order, Insert(order, f, fs))
  {
    hide KeyLess;
    if fs == [] {
    } else if KeyLess(order, f.key, fs[0].key) {
      forall j | 0 <= j < |fs| ensures KeyLess(order, f.key, fs[j].key) {
        if j > 0 { KeyOrderTransitive(order, f.key, fs[0].key, fs[j].key); }
      }
    } else {
      assert fs[0] in fs;
      KeyOrderTotal(order, f.key, fs[0].key);
      assert KeyFree(fs[1..], f.key);
      InsertAscends(order, f, fs[1..]);
      InsertMembers(order, f, fs[1..]);
      var rest := Insert(order, f, fs[1..]);
      forall j | 0 <= j < |rest| ensures KeyLess(order, fs[0].key, rest[j].key) {
        assert rest[j] in rest;
        if rest[j] != f {
          var k :| 0 <= k < |fs[1..]| && fs[1..][k] == rest[j];
          assert fs[k + 1] == rest[j];
        }
      }
    }
  }

  lemma {:induction false} SortFieldsSorts(order: Order, fs: seq<Field>)
    requires DistinctKeys(fs)
    ensures |SortFields(order, fs)| == |fs| && Ascending(order, SortFields(order, fs))
    ensures forall g :: g in SortFields(order, fs) <==> g in fs
  {
    hide KeyLess, Insert;
    if fs != [] {
      var init, last := fs[..|fs| - 1], fs[|fs| - 1];
      SortFieldsSorts(order, init);
      assert KeyFree(SortFields(order, init), last.key);
      InsertAscends(order, last, SortFields(order, init));
      InsertMembers(order, last, SortFields(order, init));
      assert fs == init + [last];
    }
  }

  /** A strictly ascending list of fields is determined by its members. */
  lemma {:induction false} AscendingUnique(order: Order, a: seq<Field>, b: seq<Field>)
    requires Ascending(order, a) && Ascending(order, b)
    requires forall g :: g in a <==> g in b
    ensures a == b
  {
    hide KeyLess;
    assert b != [] ==> b[0] in b;
    if a != [] {
      assert a[0] in a && a[0] in b;
      assert b[0] in b && b[0] in a;
      var i :| 0 <= i < |b| && b[i] == a[0];
      var j :| 0 <= j < |a| && a[j] == b[0];
      KeyOrderTotal(order, a[0].key, b[0].key);
      assert a[0] == b[0];
      forall g ensures g in a[1..] <==> g in b[1..] {
        TailMember(order, a, g);
        TailMember(order, b, g);
      }
      AscendingUnique(order, a[1..], b[1..]);
      assert a == [a[0]] + a[1..] && b == [b[0]] + b[1..];
    }
  }

  lemma TailMember(order: Order, a: seq<Field>, g: Field)
    requires a != [] && Ascending(order, a)
    ensures g in a[1..] <==> g in a && g != a[0]
  {
    hide KeyLess;
    KeyOrderTotal(order, a[0].key, a[0].key);
    assert a == [a[0]] + a[1..];
    if g in a[1..] {
      var i :| 0 <= i < |a[1..]| && a[1..][i] == g;
      assert a[i + 1] == g && KeyLess(order, a[0].key, a[i + 1].key);
    }
  }

  // ------------------------------------------------- the canonical value

  /** Whether re-keying an object keeps this key: a JavaScript assignment to
      `__proto__` makes no own property, a Rust map has no such exception. */
  predicate Keeps(order: Order, key: string) { order != Enumeration || key != PROTO }

  /** `sortValue` and `sort_value`: objects re-keyed at every depth so that they
      enumerate in the given order. */
  function Sorted(order: Order, v: Json): Json
    decreases v, 1
  {
    match v
    case Arr(items) => Arr(SortedItems(order, items))
    case Obj(fields) => Obj(SortFields(order, SortedValues(order, fields)))
    case _ => v
  }

  function SortedItems(order: Order, items: seq<Json>): (r: seq<Json>)
    ensures |r| == |items|
    decreases items, 0
  {
    if items == [] then [] else [Sorted(order, items[0])] + SortedItems(order, items[1..])
  }

  function SortedValues(order: Order, fields: seq<Field>): seq<Field>
    decreases fields, 0
  {
    if fields == [] then []
    else (if Keeps(order, fields[0].key) then [Field(fields[0].key, Sorted(order, fields[0].value))] else [])
         + SortedValues(order, fields[1..])
  }

  /** The canonical text: of the signer under `Enumeration`, of the verifier under
      `CodePoints`. */
  function Canonical(order: Order, v: Json): string { Stringify(Sorted(order, v)) }

  // --------------------------------------------------- the source's loops

  /** A JavaScript object puts a new array index among its leading indices and any
      other new key last; assigning to `__proto__` adds nothing. */
  function Assign(fs: seq<Field>, f: Field): seq<Field> {
    if f.key == PROTO then fs
    else if HasKey(fs, f.key) then fs[IndexOfKey(fs, f.key) := f]
    else if IsIndex(f.key) then InsertIndex(fs, f)
    else fs + [f]
  }

  function InsertIndex(fs: seq<Field>, f: Field): seq<Field>
    requires IsIndex(f.key)
  {
    if fs == [] || !IsIndex(fs[0].key) || ParseNat(f.key) < ParseNat(fs[0].key) then [f] + fs
    else [fs[0]] + InsertIndex(fs[1..], f)
  }

  lemma SingleLess(m: int, n: int)
    ensures Lex([m], [n]) <==> m < n
  {
    assert [m][1..] == [] && [n][1..] == [];
  }

  lemma IndexKeyLess(a: string, b: string)
    requires IsIndex(a)
    ensures KeyLess(Enumeration, a, b) <==> !IsIndex(b) || ParseNat(a) < ParseNat(b)
  {
    var x, y := KeyCode(Enumeration, a), KeyCode(Enumeration, b);
    assert x[0] == 0 && x[1..] == [ParseNat(a)];
    if IsIndex(b) {
      assert y[0] == 0 && y[1..] == [ParseNat(b)];
      SingleLess(ParseNat(a), ParseNat(b));
    } else {
      assert y[0] == 1;
    }
  }

  lemma {:induction false} InsertIndexIsInsert(fs: seq<Field>, f: Field)
    requires IsIndex(f.key)
    ensures InsertIndex(fs, f) == Insert(Enumeration, f, fs)
  {
    hide KeyLess, IsIndex;
    if fs != [] {
      IndexKeyLess(f.key, fs[0].key);
      InsertIndexIsInsert(fs[1..], f);
    }
  }

  lemma {:induction false} AppendIsInsert(order: Order, fs: seq<Field>, f: Field)
    requires forall g :: g in fs ==> KeyLess(order, g.key, f.key)
    ensures Insert(order, f, fs) == fs + [f]
  {
    hide KeyLess;
    if fs != [] {
      assert fs[0] in fs;
      KeyOrderTotal(order, fs[0].key, f.key);
      AppendIsInsert(order, fs[1..], f);
      assert fs == [fs[0]] + fs[1..];
    }
  }

  lemma TailKeyLess(a: string, b: string)
    requires KeyLess(Utf16, a, b) && !IsIndex(b)
    ensures KeyLess(Enumeration, a, b)
  {
    hide IsIndex;
    var x, y := KeyCode(Enumeration, a), KeyCode(Enumeration, b);
    assert y[0] == 1 && y[1..] == Units(b);
    if IsIndex(a) {
      assert x[0] == 0;
    } else {
      assert x[0] == 1 && x[1..] == Units(a);
    }
  }

  /** Filling an object with keys in UTF-16 order gives the enumeration order. */
  lemma AssignIsInsert(fs: seq<Field>, f: Field)
    requires f.key != PROTO && forall g :: g in fs ==> KeyLess(Utf16, g.key, f.key)
    ensures Assign(fs, f) == Insert(Enumeration, f, fs) && KeyFree(fs, f.key)
  {
    hide KeyLess, IsIndex, InsertIndex;
    forall g | g in fs ensures g.key != f.key { KeyOrderTotal(Utf16, g.key, g.key); }
    assert forall i :: 0 <= i < |fs| ==> fs[i] in fs;
    if IsIndex(f.key) {
      InsertIndexIsInsert(fs, f);
    } else {
      forall g | g in fs ensures KeyLess(Enumeration, g.key, f.key) { TailKeyLess(g.key, f.key); }
      AppendIsInsert(Enumeration, fs, f);
    }
  }

  /** The two languages the algorithm is written in. */
  datatype Language = TypeScript | Rust

  /** The order in which the loop visits keys, and the order it leaves behind. */
  function VisitOrder(lang: Language): Order { if lang == TypeScript then Utf16 else CodePoints }
  function ResultOrder(lang: Language): Order { if lang == TypeScript then Enumeration else CodePoints }

  function Store(lang: Language, fs: seq<Field>, f: Field): seq<Field> {
    if lang == TypeScript then Assign(fs, f) else Insert(CodePoints, f, fs)
  }

  lemma {:induction false} SortedValuesConcat(order: Order, a: seq<Field>, b: seq<Field>)
    ensures SortedValues(order, a + b) == SortedValues(order, a) + SortedValues(order, b)
  {
    hide Sorted, Keeps;
    if a == [] {
      assert a + b == b;
    } else {
      assert (a + b)[1..] == a[1..] + b;
      SortedValuesConcat(order, a[1..], b);
      var first := if Keeps(order, a[0].key) then [Field(a[0].key, Sorted(order, a[0].value))] else [];
      Regroup(first, SortedValues(order, a[1..]), SortedValues(order, b));
    }
  }

  lemma Regroup(x: seq<Field>, y: seq<Field>, z: seq<Field>)
    ensures x + (y + z) == (x + y) + z
  {}

  lemma {:induction false} SortedValuesMembers(order: Order, fs: seq<Field>)
    ensures forall g :: g in SortedValues(order, fs) <==>
      exists f :: f in fs && Keeps(order, f.key) && g == Field(f.key, Sorted(order, f.value))
  {
    hide Sorted, Keeps;
    if fs != [] {
      SortedValuesMembers(order, fs[1..]);
      assert fs == [fs[0]] + fs[1..];
    }
  }

  lemma {:induction false} SortedValuesDistinct(order: Order, fs: seq<Field>)
    requires DistinctKeys(fs)
    ensures DistinctKeys(SortedValues(order, fs))
  {
    hide Sorted, Keeps;
    if fs != [] {
      SortedValuesDistinct(order, fs[1..]);
      SortedValuesMembers(order, fs[1..]);
      var rest := SortedValues(order, fs[1..]);
      forall j | 0 <= j < |rest| ensures rest[j].key != fs[0].key {
        assert rest[j] in rest;
        var f :| f in fs[1..] && rest[j] == Field(f.key, Sorted(order, f.value));
        var k :| 0 <= k < |fs[1..]| && fs[1..][k] == f;
        assert fs[k + 1] == f;
      }
    }
  }

  /** One turn of the loop: `visited` is done, `f` comes next. */
  lemma StoreStep(lang: Language, visited: seq<Field>, f: Field, sorted: seq<Field>)
    requires Ascending(VisitOrder(lang), visited + [f])
    requires var order := ResultOrder(lang);
             Ascending(order, sorted)
             && forall g :: g in sorted <==> g in SortedValues(order, visited)
    ensures var order := ResultOrder(lang);
            var stored := Store(lang, sorted, Field(f.key, Sorted(order, f.value)));
            Ascending(order, stored)
            && forall g :: g in stored <==> g in SortedValues(order, visited + [f])
  {
    hide KeyLess, Sorted, Assign, Insert;
    var order := ResultOrder(lang);
    var g := Field(f.key, Sorted(order, f.value));
    SortedValuesConcat(order, visited, [f]);
    assert SortedValues(order, [f]) == (if Keeps(order, f.key) then [g] else []) + [];
    SortedValuesMembers(order, visited);
    forall h | h in sorted ensures KeyLess(VisitOrder(lang), h.key, f.key) {
      var e :| e in visited && h.key == e.key;
      var k :| 0 <= k < |visited| && visited[k] == e;
      assert (visited + [f])[k] == e && (visited + [f])[|visited|] == f;
    }
    if lang == TypeScript {
      if f.key == PROTO {
        AssignNothing(sorted, g);
      } else {
        AssignIsInsert(sorted, g);
        InsertAscends(order, g, sorted);
        InsertMembers(order, g, sorted);
      }
    } else {
      forall h | h in sorted ensures h.key != f.key { KeyOrderTotal(order, h.key, f.key); }
      InsertAscends(order, g, sorted);
      InsertMembers(order, g, sorted);
    }
  }

  lemma AssignNothing(fs: seq<Field>, f: Field)
    requires f.key == PROTO
    ensures Assign(fs, f) == fs
  {}

  /** `sortValue` / `sort_value`: visit the keys in sorted order and store each
      sorted child in a fresh object. */
  method SortValue(lang: Language, value: Json) returns (r: Json)
    requires WellFormed(value)
    ensures r == Sorted(ResultOrder(lang), value)
    decreases value
  {
    hide Sorted, SortFields, SortedValues, Store, KeyLess;
    var order := ResultOrder(lang);
    SortedUnfolds(order, value);
    if value.Arr? {
      var items: seq<Json> := [];
      for i := 0 to |value.items|
        invariant items == SortedItems(order, value.items[..i])
      {
        var item := SortValue(lang, value.items[i]);
        SortedItemsSnoc(order, value.items, i);
        items := items + [item];
      }
      assert value.items[..|value.items|] == value.items;
      r := Arr(items);
    } else if value.Obj? {
      var keys := SortFields(VisitOrder(lang), value.fields);
      SortFieldsSorts(VisitOrder(lang), value.fields);
      var sorted: seq<Field> := [];
      assert SortedValues(order, keys[..0]) == [] by { NoSortedValues(order); }
      for i := 0 to |keys|
        invariant Ascending(order, sorted)
        invariant forall g :: g in sorted <==> g in SortedValues(order, keys[..i])
      {
        assert keys[i] in value.fields;
        var child := SortValue(lang, keys[i].value);
        StoreStep(lang, keys[..i], keys[i], sorted);
        assert keys[..i + 1] == keys[..i] + [keys[i]];
        sorted := Store(lang, sorted, Field(keys[i].key, child));
      }
      assert keys[..|keys|] == keys;
      SortedValuesMembers(order, keys);
      SortedValuesMembers(order, value.fields);
      SortedValuesDistinct(order, value.fields);
      SortFieldsSorts(order, SortedValues(order, value.fields));
      AscendingUnique(order, sorted, SortFields(order, SortedValues(order, value.fields)));
      r := Obj(sorted);
    } else {
      r := value;
    }
  }

  lemma NoSortedValues(order: Order)
    ensures SortedValues(order, []) == []
  {}

  lemma SortedUnfolds(order: Order, v: Json)
    ensures v.Arr? ==> Sorted(order, v) == Arr(SortedItems(order, v.items))
    ensures v.Obj? ==> Sorted(order, v) == Obj(SortFields(order, SortedValues(order, v.fields)))
    ensures !v.Arr? && !v.Obj? ==> Sorted(order, v) == v
  {}

  lemma {:induction false} SortedItemsConcat(order: Order, a: seq<Json>, b: seq<Json>)
    ensures SortedItems(order, a + b) == SortedItems(order, a) + SortedItems(order, b)
  {
    hide Sorted;
    if a == [] {
      assert a + b == b;
    } else {
      assert (a + b)[1..] == a[1..] + b;
      SortedItemsConcat(order, a[1..], b);
    }
  }

  lemma SortedItemsSnoc(order: Order, items: seq<Json>, i: nat)
    requires i < |items|
    ensures SortedItems(order, items[..i + 1]) == SortedItems(order, items[..i]) + [Sorted(order, items[i])]
  {
    hide Sorted;
    assert items[..i + 1] == items[..i] + [items[i]];
    SortedItemsConcat(order, items[..i], [items[i]]);
    assert [items[i]][1..] == [];
  }
}
