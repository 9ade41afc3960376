/** Laws of canonical JSON. */
module CanonicalLaws {
  // What the canonical text is good for: it identifies a value up to key order,
  // and the signer's and the verifier's texts agree exactly on portable values.

  import opened Text
  import opened Json
  import opened Numerals
  import opened JsonText
  import opened JsonReader
  import opened CanonicalJson
  import opened Options

  // ------------------------------------------------ equality up to key order

  /** The two values differ at most in the order of object keys, at any depth. */
  ghost predicate Same(v: Json, w: Json)
    decreases v
  {
    match v
    case Arr(items) =>
      w.Arr? && |items| == |w.items|
      && forall i :: 0 <= i < |items| ==> Same(items[i], w.items[i])
    case Obj(fields) =>
      w.Obj? && |fields| == |w.fields|
      && forall i :: 0 <= i < |fields| ==> HasSame(fields[i], w.fields)
    case _ => v == w
  }

  ghost predicate HasSame(f: Field, fs: seq<Field>)
    decreases f
  {
    exists j :: 0 <= j < |fs| && fs[j].key == f.key && Same(f.value, fs[j].value)
  }

  lemma SortedValuesAll(order: Order, fs: seq<Field>)
    requires forall i :: 0 <= i < |fs| ==> Keeps(order, fs[i].key)
    ensures |SortedValues(order, fs)| == |fs|
    ensures forall i :: 0 <= i < |fs| ==>
      SortedValues(order, fs)[i] == Field(fs[i].key, Sorted(order, fs[i].value))
  {
    hide Sorted, Keeps;
    if fs != [] { SortedValuesAll(order, fs[1..]); }
  }

  /** Every key in the value is one that re-keying keeps. */
  predicate AllKept(order: Order, v: Json) {
    match v
    case Arr(items) => forall i :: 0 <= i < |items| ==> AllKept(order, items[i])
    case Obj(fields) =>
      forall i :: 0 <= i < |fields| ==> Keeps(order, fields[i].key) && AllKept(order, fields[i].value)
    case _ => true
  }

  lemma {:induction false} SortedItemsAt(order: Order, items: seq<Json>)
    ensures forall i :: 0 <= i < |items| ==> SortedItems(order, items)[i] == Sorted(order, items[i])
  {
    hide Sorted;
    if items != [] { SortedItemsAt(order, items[1..]); }
  }

  ghost predicate Tidy(order: Order, v: Json) { WellFormed(v) && AllKept(order, v) }

  lemma TidyParts(order: Order, v: Json)
    requires Tidy(order, v)
    ensures v.Arr? ==> forall i :: 0 <= i < |v.items| ==> Tidy(order, v.items[i])
    ensures v.Obj? ==> DistinctKeys(v.fields)
    ensures v.Obj? ==> forall i :: 0 <= i < |v.fields| ==>
      Keeps(order, v.fields[i].key) && Tidy(order, v.fields[i].value)
  {}

  ghost predicate IsSortedField(order: Order, g: Field, fs: seq<Field>) {
    exists i :: 0 <= i < |fs| && g == Field(fs[i].key, Sorted(order, fs[i].value))
  }

  /** The fields of a sorted object are the sorted fields, in order. */
  lemma SortedFieldsFacts(order: Order, v: Json)
    requires Tidy(order, v) && v.Obj?
    ensures var r := SortFields(order, SortedValues(order, v.fields));
            && |r| == |v.fields| && Ascending(order, r)
            && forall g :: g in r <==> IsSortedField(order, g, v.fields)
  {
    hide Sorted, Tidy, Keeps, KeyLess;
    TidyParts(order, v);
    SortedValuesAll(order, v.fields);
    SortedValuesDistinct(order, v.fields);
    var s := SortedValues(order, v.fields);
    SortFieldsSorts(order, s);
    forall g | g in s ensures IsSortedField(order, g, v.fields) {
      var i :| 0 <= i < |s| && s[i] == g;
      assert g == Field(v.fields[i].key, Sorted(order, v.fields[i].value));
    }
    forall i | 0 <= i < |v.fields| ensures Field(v.fields[i].key, Sorted(order, v.fields[i].value)) in s {
      assert s[i] in s;
    }
  }

  lemma {:induction false} SameImpliesSorted(order: Order, v: Json, w: Json)
    requires Tidy(order, v) && Tidy(order, w) && Same(v, w)
    ensures Sorted(order, v) == Sorted(order, w)
    decreases v
  {
    hide Tidy, Keeps, KeyLess, SortFields, SortedValues, SortedItems;
    SortedUnfolds(order, v);
    SortedUnfolds(order, w);
    TidyParts(order, v);
    TidyParts(order, w);
    if v.Arr? {
      SortedItemsAt(order, v.items);
      SortedItemsAt(order, w.items);
      forall i | 0 <= i < |v.items| ensures Sorted(order, v.items[i]) == Sorted(order, w.items[i]) {
        SameImpliesSorted(order, v.items[i], w.items[i]);
      }
      assert SortedItems(order, v.items) == SortedItems(order, w.items);
    } else if v.Obj? {
      var a, b := SortFields(order, SortedValues(order, v.fields)), SortFields(order, SortedValues(order, w.fields));
      SortedFieldsFacts(order, v);
      SortedFieldsFacts(order, w);
      forall g | g in a ensures g in b {
        var i :| 0 <= i < |v.fields| && g == Field(v.fields[i].key, Sorted(order, v.fields[i].value));
        assert HasSame(v.fields[i], w.fields);
        var j :| 0 <= j < |w.fields| && w.fields[j].key == v.fields[i].key
                 && Same(v.fields[i].value, w.fields[j].value);
        SameImpliesSorted(order, v.fields[i].value, w.fields[j].value);
      }
      SubsetOfSameSize(order, a, b);
    }
  }

  lemma {:induction false} SubsetOfSameSize(order: Order, a: seq<Field>, b: seq<Field>)
    requires Ascending(order, a) && Ascending(order, b) && |a| == |b|
    requires forall g :: g in a ==> g in b
    ensures a == b
  {
    hide KeyLess;
    AscendingSet(order, a);
    AscendingSet(order, b);
    var x, y := set g | g in a, set g | g in b;
    assert x <= y;
    SubsetOfSameCard(x, y);
    assert forall g :: g in b ==> g in y && g in x;
    AscendingUnique(order, a, b);
  }

  lemma SubsetOfSameCard<T>(x: set<T>, y: set<T>)
    requires x <= y && |x| == |y|
    ensures x == y
  {
    assert |y - x| == 0;
  }

  lemma {:induction false} AscendingSet(order: Order, a: seq<Field>)
    requires Ascending(order, a)
    ensures |set g | g in a| == |a|
  {
    hide KeyLess;
    if a != [] {
      AscendingSet(order, a[1..]);
      TailMember(order, a, a[0]);
      assert a == [a[0]] + a[1..];
      assert (set g | g in a) == {a[0]} + (set g | g in a[1..]);
    }
  }

  lemma {:induction false} SortedImpliesSame(order: Order, v: Json, w: Json)
    requires Tidy(order, v) && Tidy(order, w) && Sorted(order, v) == Sorted(order, w)
    ensures Same(v, w)
    decreases v
  {
    hide Tidy, Keeps, KeyLess, SortFields, SortedValues, SortedItems;
    SortedUnfolds(order, v);
    SortedUnfolds(order, w);
    TidyParts(order, v);
    TidyParts(order, w);
    if v.Arr? {
      SortedItemsAt(order, v.items);
      SortedItemsAt(order, w.items);
      forall i | 0 <= i < |v.items| ensures Same(v.items[i], w.items[i]) {
        SortedImpliesSame(order, v.items[i], w.items[i]);
      }
    } else if v.Obj? {
      SortedFieldsFacts(order, v);
      SortedFieldsFacts(order, w);
      forall i | 0 <= i < |v.fields| ensures HasSame(v.fields[i], w.fields) {
        var g := Field(v.fields[i].key, Sorted(order, v.fields[i].value));
        assert g in SortFields(order, SortedValues(order, v.fields));
        var j :| 0 <= j < |w.fields| && g == Field(w.fields[j].key, Sorted(order, w.fields[j].value));
        SortedImpliesSame(order, v.fields[i].value, w.fields[j].value);
      }
    }
  }

  // --------------------------------------- what the text leaves out of a value

  /** The part of a value that its canonical text shows: members that are
      `undefined` or that re-keying loses are gone, `undefined` items and numbers
      that are not finite are null. */
  function Visible(order: Order, v: Json): Json
    decreases v, 1
  {
    match v
    case Undefined => Null
    case Real(literal) => if IsNumeral(literal) then v else Null
    case Arr(items) => Arr(VisibleItems(order, items))
    case Obj(fields) => Obj(VisibleFields(order, fields))
    case _ => v
  }

  function VisibleItems(order: Order, items: seq<Json>): (r: seq<Json>)
    ensures |r| == |items|
    decreases items, 0
  {
    if items == [] then [] else [Visible(order, items[0])] + VisibleItems(order, items[1..])
  }

  predicate Shows(order: Order, f: Field) { Keeps(order, f.key) && !f.value.Undefined? }

  function VisibleFields(order: Order, fs: seq<Field>): seq<Field>
    decreases fs, 0
  {
    if fs == [] then []
    else (if Shows(order, fs[0]) then [Field(fs[0].key, Visible(order, fs[0].value))] else [])
         + VisibleFields(order, fs[1..])
  }

  lemma {:induction false} VisibleItemsAt(order: Order, items: seq<Json>)
    ensures forall i :: 0 <= i < |items| ==> VisibleItems(order, items)[i] == Visible(order, items[i])
  {
    hide Visible;
    if items != [] { VisibleItemsAt(order, items[1..]); }
  }

  lemma {:induction false} VisibleFieldsMembers(order: Order, fs: seq<Field>)
    ensures forall g :: g in VisibleFields(order, fs) <==>
      exists f :: f in fs && Shows(order, f) && g == Field(f.key, Visible(order, f.value))
  {
    hide Visible, Shows;
    if fs != [] {
      VisibleFieldsMembers(order, fs[1..]);
      assert fs == [fs[0]] + fs[1..];
    }
  }

  lemma {:induction false} VisibleFieldsDistinct(order: Order, fs: seq<Field>)
    requires DistinctKeys(fs)
    ensures DistinctKeys(VisibleFields(order, fs))
  {
    hide Visible, Shows;
    if fs != [] {
      VisibleFieldsDistinct(order, fs[1..]);
      VisibleFieldsMembers(order, fs[1..]);
      var rest := VisibleFields(order, fs[1..]);
      forall j | 0 <= j < |rest| ensures rest[j].key != fs[0].key {
        assert rest[j] in rest;
        var f :| f in fs[1..] && rest[j] == Field(f.key, Visible(order, f.value));
        var k :| 0 <= k < |fs[1..]| && fs[1..][k] == f;
        assert fs[k + 1] == f;
      }
    }
  }

  lemma {:induction false} VisibleIsTidy(order: Order, v: Json)
    requires WellFormed(v)
    ensures Tidy(order, Visible(order, v)) && Plain(Visible(order, v))
    decreases v
  {
    hide Shows, VisibleItems, VisibleFields, IsNumeral;
    VisibleUnfolds(order, v);
    if v.Arr? {
      VisibleItemsAt(order, v.items);
      forall i | 0 <= i < |v.items|
        ensures Tidy(order, Visible(order, v.items[i])) && Plain(Visible(order, v.items[i]))
      {
        VisibleIsTidy(order, v.items[i]);
      }
    } else if v.Obj? {
      VisibleFieldsMembers(order, v.fields);
      VisibleFieldsDistinct(order, v.fields);
      var r := VisibleFields(order, v.fields);
      forall i | 0 <= i < |r|
        ensures Keeps(order, r[i].key) && Tidy(order, r[i].value) && Plain(r[i].value)
      {
        assert r[i] in r;
        var f :| f in v.fields && Shows(order, f) && r[i] == Field(f.key, Visible(order, f.value));
        ShowsMeans(order, f);
        VisibleIsTidy(order, f.value);
      }
    }
  }

  lemma ShowsMeans(order: Order, f: Field)
    ensures Shows(order, f) <==> Keeps(order, f.key) && !f.value.Undefined?
  {}

  lemma VisibleUnfolds(order: Order, v: Json)
    ensures v.Arr? ==> Visible(order, v) == Arr(VisibleItems(order, v.items))
    ensures v.Obj? ==> Visible(order, v) == Obj(VisibleFields(order, v.fields))
    ensures v.Undefined? ==> Visible(order, v) == Null
    ensures v.Real? && !IsNumeral(v.literal) ==> Visible(order, v) == Null
    ensures !v.Arr? && !v.Obj? && !v.Undefined? && !v.Real? ==> Visible(order, v) == v
    ensures v.Real? && IsNumeral(v.literal) ==> Visible(order, v) == v
  {}

  lemma {:induction false} StringifyShows(v: Json)
    ensures Stringify(v) == Stringify(Visible(CodePoints, v))
    decreases v, 1
  {
    hide Quoted, IsNumeral;
    if v.Arr? { ItemsTextShows(v.items, true); } else if v.Obj? { FieldsTextShows(v.fields, true); }
  }

  lemma {:induction false} ItemsTextShows(items: seq<Json>, first: bool)
    ensures ItemsText(items, first) == ItemsText(VisibleItems(CodePoints, items), first)
    decreases items, 0
  {
    hide Stringify, Visible;
    if items != [] {
      StringifyShows(items[0]);
      ItemsTextShows(items[1..], false);
      assert VisibleItems(CodePoints, items)[1..] == VisibleItems(CodePoints, items[1..]);
    }
  }

  lemma {:induction false} FieldsTextShows(fs: seq<Field>, first: bool)
    ensures FieldsText(fs, first) == FieldsText(VisibleFields(CodePoints, fs), first)
    decreases fs, 0
  {
    hide Stringify, Visible, Quoted;
    if fs != [] {
      var f, r := fs[0], VisibleFields(CodePoints, fs);
      if f.value.Undefined? {
        FieldsTextShows(fs[1..], first);
        assert r == VisibleFields(CodePoints, fs[1..]);
      } else {
        StringifyShows(f.value);
        FieldsTextShows(fs[1..], false);
        VisibleDefined(CodePoints, f.value);
        assert r[0] == Field(f.key, Visible(CodePoints, f.value));
        assert r[1..] == VisibleFields(CodePoints, fs[1..]);
      }
    }
  }

  lemma VisibleDefined(order: Order, v: Json)
    ensures !Visible(order, v).Undefined?
  {}

  lemma {:induction false} VisibleFieldsAscend(order: Order, hidden: Order, fs: seq<Field>)
    requires Ascending(order, fs)
    ensures Ascending(order, VisibleFields(hidden, fs))
  {
    hide Visible, Shows, KeyLess;
    if fs != [] {
      VisibleFieldsAscend(order, hidden, fs[1..]);
      VisibleFieldsMembers(hidden, fs[1..]);
      var rest := VisibleFields(hidden, fs[1..]);
      forall j | 0 <= j < |rest| ensures KeyLess(order, fs[0].key, rest[j].key) {
        assert rest[j] in rest;
        var f :| f in fs[1..] && rest[j] == Field(f.key, Visible(hidden, f.value));
        var k :| 0 <= k < |fs[1..]| && fs[1..][k] == f;
        assert fs[k + 1] == f;
      }
    }
  }

  lemma SortedKind(order: Order, v: Json)
    ensures Sorted(order, v).Undefined? <==> v.Undefined?
  {
    SortedUnfolds(order, v);
  }

  /** Leaving members out commutes with sorting. */
  lemma {:induction false} VisibleOfSorted(order: Order, v: Json)
    requires WellFormed(v)
    ensures Visible(CodePoints, Sorted(order, v)) == Sorted(order, Visible(order, v))
    decreases v
  {
    hide Visible, VisibleItems, VisibleFields, Sorted, SortedItems, SortFields, SortedValues;
    SortedUnfolds(order, v);
    SortedUnfolds(order, Visible(order, v));
    VisibleUnfolds(order, v);
    VisibleUnfolds(CodePoints, Sorted(order, v));
    if v.Arr? {
      SortedItemsAt(order, v.items);
      VisibleItemsAt(order, v.items);
      SortedItemsAt(order, VisibleItems(order, v.items));
      VisibleItemsAt(CodePoints, SortedItems(order, v.items));
      forall i | 0 <= i < |v.items|
        ensures Visible(CodePoints, Sorted(order, v.items[i])) == Sorted(order, Visible(order, v.items[i]))
      {
        VisibleOfSorted(order, v.items[i]);
      }
      assert VisibleItems(CodePoints, SortedItems(order, v.items))
             == SortedItems(order, VisibleItems(order, v.items));
    } else if v.Obj? {
      forall i | 0 <= i < |v.fields|
        ensures Visible(CodePoints, Sorted(order, v.fields[i].value))
                == Sorted(order, Visible(order, v.fields[i].value))
      {
        VisibleOfSorted(order, v.fields[i].value);
      }
      VisibleOfSortedFields(order, v.fields);
    }
  }

  lemma VisibleOfSortedFields(order: Order, fs: seq<Field>)
    requires DistinctKeys(fs)
    requires forall i :: 0 <= i < |fs| ==>
      Visible(CodePoints, Sorted(order, fs[i].value)) == Sorted(order, Visible(order, fs[i].value))
    ensures VisibleFields(CodePoints, SortFields(order, SortedValues(order, fs)))
            == SortFields(order, SortedValues(order, VisibleFields(order, fs)))
  {
    hide Visible, Sorted, SortFields, SortedValues, VisibleFields, KeyLess, Keeps, Shows;
    var s, shown := SortedValues(order, fs), VisibleFields(order, fs);
    SortedValuesDistinct(order, fs);
    SortFieldsSorts(order, s);
    VisibleFieldsAscend(order, CodePoints, SortFields(order, s));
    VisibleFieldsDistinct(order, fs);
    SortedValuesDistinct(order, shown);
    SortFieldsSorts(order, SortedValues(order, shown));
    SortedValuesMembers(order, fs);
    VisibleFieldsMembers(order, fs);
    VisibleFieldsMembers(CodePoints, SortFields(order, s));
    SortedValuesMembers(order, shown);
    var a, b := VisibleFields(CodePoints, SortFields(order, s)), SortedValues(order, shown);
    forall g | g in a ensures g in b {
      var e :| e in s && Shows(CodePoints, e) && g == Field(e.key, Visible(CodePoints, e.value));
      var f :| f in fs && Keeps(order, f.key) && e == Field(f.key, Sorted(order, f.value));
      ShownFields(order, f, e);
      assert Field(f.key, Visible(order, f.value)) in shown;
    }
    forall g | g in b ensures g in a {
      var e :| e in shown && Keeps(order, e.key) && g == Field(e.key, Sorted(order, e.value));
      var f :| f in fs && Shows(order, f) && e == Field(f.key, Visible(order, f.value));
      var h := Field(f.key, Sorted(order, f.value));
      ShownFields(order, f, h);
      assert h in s;
    }
    AscendingUnique(order, a, SortFields(order, b));
  }

  lemma ShownFields(order: Order, f: Field, e: Field)
    requires e == Field(f.key, Sorted(order, f.value))
    ensures Shows(CodePoints, e) <==> !f.value.Undefined?
    ensures Shows(order, f) <==> Keeps(order, f.key) && !f.value.Undefined?
  {
    hide Sorted;
    SortedKind(order, f.value);
  }

  // ------------------------------------------------------------ main results

  lemma CanonicalShows(order: Order, v: Json)
    requires WellFormed(v)
    ensures Canonical(order, v) == Stringify(Sorted(order, Visible(order, v)))
  {
    hide Stringify, Sorted, Visible, WellFormed;
    StringifyShows(Sorted(order, v));
    VisibleOfSorted(order, v);
  }

  lemma {:induction false} SortedIsPlain(order: Order, v: Json)
    requires Plain(v) && WellFormed(v)
    ensures Plain(Sorted(order, v))
    decreases v
  {
    hide SortFields, SortedValues, SortedItems, Keeps;
    SortedUnfolds(order, v);
    if v.Arr? {
      SortedItemsAt(order, v.items);
      forall i | 0 <= i < |v.items| ensures Plain(Sorted(order, v.items[i])) {
        SortedIsPlain(order, v.items[i]);
      }
    } else if v.Obj? {
      SortedMembers(order, v.fields);
      var r := SortFields(order, SortedValues(order, v.fields));
      forall k | 0 <= k < |r| ensures Plain(r[k].value) {
        assert r[k] in r;
        var f :| f in v.fields && Keeps(order, f.key) && r[k] == Field(f.key, Sorted(order, f.value));
        SortedIsPlain(order, f.value);
      }
    }
  }

  lemma SortedMembers(order: Order, fs: seq<Field>)
    requires DistinctKeys(fs)
    ensures var r := SortFields(order, SortedValues(order, fs));
            && Ascending(order, r) && |r| == |SortedValues(order, fs)|
            && forall g :: g in r <==>
              (exists f :: f in fs && Keeps(order, f.key) && g == Field(f.key, Sorted(order, f.value)))
  {
    hide SortFields, SortedValues, Sorted, Keeps, KeyLess;
    SortedValuesMembers(order, fs);
    SortedValuesDistinct(order, fs);
    SortFieldsSorts(order, SortedValues(order, fs));
  }

  /** Two values have the same canonical text exactly when what the text shows of
      them differs at most in key order, at any depth. */
  lemma CanonicalExactly(order: Order, v: Json, w: Json)
    requires WellFormed(v) && WellFormed(w)
    ensures Canonical(order, v) == Canonical(order, w) <==> Same(Visible(order, v), Visible(order, w))
  {
    hide Canonical, Stringify, Sorted, Visible, WellFormed, Plain, Tidy, Same;
    var a, b := Visible(order, v), Visible(order, w);
    CanonicalShows(order, v);
    CanonicalShows(order, w);
    VisibleIsTidy(order, v);
    VisibleIsTidy(order, w);
    if Same(a, b) { SameImpliesSorted(order, a, b); }
    if Canonical(order, v) == Canonical(order, w) {
      TidyWellFormed(order, a);
      TidyWellFormed(order, b);
      SortedIsPlain(order, a);
      SortedIsPlain(order, b);
      StringifyInjective(Sorted(order, a), Sorted(order, b));
      SortedImpliesSame(order, a, b);
    }
  }

  lemma {:induction false} SameReflexive(v: Json)
    ensures Same(v, v)
    decreases v
  {
    if v.Arr? {
      forall i | 0 <= i < |v.items| ensures Same(v.items[i], v.items[i]) { SameReflexive(v.items[i]); }
    } else if v.Obj? {
      forall i | 0 <= i < |v.fields| ensures HasSame(v.fields[i], v.fields) {
        SameReflexive(v.fields[i].value);
      }
    }
  }

  lemma SortedIsSame(order: Order, v: Json)
    requires Tidy(order, v)
    ensures Same(Sorted(order, v), v) && Tidy(order, Sorted(order, v))
    decreases v
  {
    hide Keeps, KeyLess, SortFields, SortedValues, SortedItems;
    SortedUnfolds(order, v);
    TidyParts(order, v);
    if v.Arr? {
      SortedItemsAt(order, v.items);
      forall i | 0 <= i < |v.items|
        ensures Same(Sorted(order, v.items[i]), v.items[i]) && Tidy(order, Sorted(order, v.items[i]))
      {
        SortedIsSame(order, v.items[i]);
      }
    } else if v.Obj? {
      SortedFieldsFacts(order, v);
      var r := SortFields(order, SortedValues(order, v.fields));
      AscendingDistinct(order, r);
      forall k | 0 <= k < |r|
        ensures HasSame(r[k], v.fields) && Keeps(order, r[k].key) && Tidy(order, r[k].value)
      {
        assert r[k] in r;
        var i :| 0 <= i < |v.fields| && r[k] == Field(v.fields[i].key, Sorted(order, v.fields[i].value));
        SortedIsSame(order, v.fields[i].value);
      }
    } else {
      SameReflexive(v);
    }
  }

  lemma AscendingDistinct(order: Order, fs: seq<Field>)
    requires Ascending(order, fs)
    ensures DistinctKeys(fs)
  {
    hide KeyLess;
    forall i, j | 0 <= i < j < |fs| ensures fs[i].key != fs[j].key {
      KeyOrderTotal(order, fs[i].key, fs[i].key);
    }
  }

  /** A canonical text is JSON without white space, and says what is visible of the
      value, its objects sorted at every depth. */
  lemma CanonicalIsRead(order: Order, v: Json)
    requires WellFormed(v)
    ensures ReadJson(Canonical(order, v)) == Some(Sorted(order, Visible(order, v)))
  {
    hide Canonical, Stringify, Sorted, Visible, Plain, Tidy, ReadJson;
    var x := Visible(order, v);
    CanonicalShows(order, v);
    VisibleIsTidy(order, v);
    TidyWellFormed(order, x);
    SortedIsPlain(order, x);
    StringifyReads(Sorted(order, x));
  }

  /** Canonical text is stable: reading it back and canonicalizing again gives the
      same text. */
  lemma CanonicalIdempotent(order: Order, v: Json)
    requires WellFormed(v)
    ensures ReadJson(Canonical(order, v)).Some?
    ensures Canonical(order, ReadJson(Canonical(order, v)).value) == Canonical(order, v)
  {
    hide Stringify, Sorted, Visible, Plain, Tidy, Same, ReadJson;
    var x := Visible(order, v);
    CanonicalIsRead(order, v);
    CanonicalShows(order, v);
    VisibleIsTidy(order, v);
    TidyWellFormed(order, x);
    SortedIsSame(order, x);
    SameImpliesSorted(order, Sorted(order, x), x);
  }

  lemma TidyWellFormed(order: Order, v: Json)
    requires Tidy(order, v)
    ensures WellFormed(v)
  {}

  // ------------------------------------------------------ the two languages

  /** No key is lost by JavaScript assignment, and the two languages order every
      two keys of one object the same way. */
  ghost predicate Portable(v: Json) {
    match v
    case Arr(items) => forall i :: 0 <= i < |items| ==> Portable(items[i])
    case Obj(fields) =>
      && SameKeyOrder(fields)
      && forall i :: 0 <= i < |fields| ==> fields[i].key != PROTO && Portable(fields[i].value)
    case _ => true
  }

  ghost predicate SameKeyOrder(fs: seq<Field>) {
    forall i, j :: 0 <= i < |fs| && 0 <= j < |fs| ==>
      (KeyLess(Enumeration, fs[i].key, fs[j].key) <==> KeyLess(CodePoints, fs[i].key, fs[j].key))
  }

  lemma KeptCount(order: Order, fs: seq<Field>)
    ensures |SortedValues(order, fs)| <= |fs|
    ensures |SortedValues(order, fs)| == |fs| <==> forall i :: 0 <= i < |fs| ==> Keeps(order, fs[i].key)
  {
    hide Sorted, Keeps;
    if fs != [] { KeptCount(order, fs[1..]); }
  }

  lemma KeepsAll(key: string)
    ensures Keeps(CodePoints, key) && (Keeps(Enumeration, key) <==> key != PROTO)
  {}

  lemma SortedAgree(v: Json)
    requires WellFormed(v)
    ensures Sorted(Enumeration, v) == Sorted(CodePoints, v) <==> Portable(v)
    decreases v
  {
    hide SortFields, SortedValues, SortedItems, KeyLess, Keeps;
    SortedUnfolds(Enumeration, v);
    SortedUnfolds(CodePoints, v);
    if v.Arr? {
      SortedItemsAt(Enumeration, v.items);
      SortedItemsAt(CodePoints, v.items);
      forall i | 0 <= i < |v.items|
        ensures Sorted(Enumeration, v.items[i]) == Sorted(CodePoints, v.items[i]) <==> Portable(v.items[i])
      {
        SortedAgree(v.items[i]);
      }
      if Portable(v) {
        assert SortedItems(Enumeration, v.items) == SortedItems(CodePoints, v.items);
      } else {
        var i :| 0 <= i < |v.items| && !Portable(v.items[i]);
        assert SortedItems(Enumeration, v.items)[i] != SortedItems(CodePoints, v.items)[i];
      }
    } else if v.Obj? {
      forall i | 0 <= i < |v.fields|
        ensures Sorted(Enumeration, v.fields[i].value) == Sorted(CodePoints, v.fields[i].value)
                <==> Portable(v.fields[i].value)
      {
        SortedAgree(v.fields[i].value);
      }
      if Portable(v) {
        PortableAgrees(v.fields);
      } else if SortFields(Enumeration, SortedValues(Enumeration, v.fields))
                == SortFields(CodePoints, SortedValues(CodePoints, v.fields)) {
        AgreeingIsPortable(v.fields);
      }
    }
  }

  lemma PortableAgrees(fs: seq<Field>)
    requires DistinctKeys(fs) && SameKeyOrder(fs)
    requires forall i :: 0 <= i < |fs| ==> fs[i].key != PROTO
    requires forall i :: 0 <= i < |fs| ==> Sorted(Enumeration, fs[i].value) == Sorted(CodePoints, fs[i].value)
    ensures SortFields(Enumeration, SortedValues(Enumeration, fs))
            == SortFields(CodePoints, SortedValues(CodePoints, fs))
  {
    hide SortFields, SortedValues, Sorted, KeyLess, Keeps, SameKeyOrder;
    forall i | 0 <= i < |fs| ensures Keeps(Enumeration, fs[i].key) && Keeps(CodePoints, fs[i].key) {
      KeepsAll(fs[i].key);
    }
    SortedValuesAll(Enumeration, fs);
    SortedValuesAll(CodePoints, fs);
    var s := SortedValues(CodePoints, fs);
    assert SortedValues(Enumeration, fs) == s;
    SortedValuesDistinct(CodePoints, fs);
    SameOrderSorts(fs, s);
  }

  lemma SameOrderSorts(fs: seq<Field>, s: seq<Field>)
    requires SameKeyOrder(fs) && DistinctKeys(s) && |s| == |fs|
    requires forall i :: 0 <= i < |fs| ==> s[i].key == fs[i].key
    ensures SortFields(Enumeration, s) == SortFields(CodePoints, s)
  {
    hide SortFields, KeyLess;
    SortFieldsSorts(Enumeration, s);
    SortFieldsSorts(CodePoints, s);
    var a := SortFields(Enumeration, s);
    forall p, q | 0 <= p < q < |a| ensures KeyLess(CodePoints, a[p].key, a[q].key) {
      assert a[p] in a && a[q] in a;
      var i :| 0 <= i < |s| && s[i] == a[p];
      var j :| 0 <= j < |s| && s[j] == a[q];
      assert KeyLess(Enumeration, fs[i].key, fs[j].key);
    }
    AscendingUnique(CodePoints, a, SortFields(CodePoints, s));
  }

  /** A list that ascends in both orders has its keys ordered alike by both. */
  lemma OrderByPosition(r: seq<Field>, p: nat, q: nat)
    requires p < |r| && q < |r| && Ascending(Enumeration, r) && Ascending(CodePoints, r)
    ensures KeyLess(Enumeration, r[p].key, r[q].key) <==> KeyLess(CodePoints, r[p].key, r[q].key)
  {
    hide KeyLess;
    KeyOrderTotal(Enumeration, r[p].key, r[q].key);
    KeyOrderTotal(CodePoints, r[p].key, r[q].key);
  }

  ghost predicate BothSort(fs: seq<Field>, r: seq<Field>) {
    && r == SortFields(Enumeration, SortedValues(Enumeration, fs))
    && r == SortFields(CodePoints, SortedValues(CodePoints, fs))
  }

  lemma CommonField(fs: seq<Field>, r: seq<Field>, i: nat) returns (p: nat)
    requires DistinctKeys(fs) && BothSort(fs, r) && i < |fs|
    ensures fs[i].key != PROTO
    ensures Sorted(Enumeration, fs[i].value) == Sorted(CodePoints, fs[i].value)
    ensures p < |r| && r[p].key == fs[i].key
  {
    hide SortFields, SortedValues, Sorted, KeyLess, Keeps;
    SortedMembers(Enumeration, fs);
    SortedMembers(CodePoints, fs);
    KeptCount(Enumeration, fs);
    KeptCount(CodePoints, fs);
    forall k | 0 <= k < |fs| ensures Keeps(CodePoints, fs[k].key) { KeepsAll(fs[k].key); }
    AscendingDistinct(CodePoints, r);
    KeepsAll(fs[i].key);
    var a := Field(fs[i].key, Sorted(Enumeration, fs[i].value));
    var b := Field(fs[i].key, Sorted(CodePoints, fs[i].value));
    assert fs[i] in fs && a in r && b in r;
    p :| 0 <= p < |r| && r[p] == a;
    var q :| 0 <= q < |r| && r[q] == b;
    assert p == q;
  }

  lemma AgreeingIsPortable(fs: seq<Field>)
    requires DistinctKeys(fs)
    requires SortFields(Enumeration, SortedValues(Enumeration, fs))
             == SortFields(CodePoints, SortedValues(CodePoints, fs))
    ensures SameKeyOrder(fs) && forall i :: 0 <= i < |fs| ==> fs[i].key != PROTO
    ensures forall i :: 0 <= i < |fs| ==> Sorted(Enumeration, fs[i].value) == Sorted(CodePoints, fs[i].value)
  {
    hide SortFields, SortedValues, Sorted, KeyLess, Keeps;
    var r := SortFields(CodePoints, SortedValues(CodePoints, fs));
    SortedMembers(Enumeration, fs);
    SortedMembers(CodePoints, fs);
    forall i | 0 <= i < |fs|
      ensures fs[i].key != PROTO && Sorted(Enumeration, fs[i].value) == Sorted(CodePoints, fs[i].value)
    {
      var p := CommonField(fs, r, i);
    }
    forall i, j | 0 <= i < |fs| && 0 <= j < |fs|
      ensures KeyLess(Enumeration, fs[i].key, fs[j].key) <==> KeyLess(CodePoints, fs[i].key, fs[j].key)
    {
      var p := CommonField(fs, r, i);
      var q := CommonField(fs, r, j);
      OrderByPosition(r, p, q);
    }
  }

  /** Signer and verifier compute the same canonical text exactly for portable
      values. */
  lemma LanguagesAgreeExactly(v: Json)
    requires WellFormed(v) && Plain(v)
    ensures Canonical(Enumeration, v) == Canonical(CodePoints, v) <==> Portable(v)
  {
    hide Stringify, Sorted, Plain, Portable, WellFormed;
    SortedAgree(v);
    SortedIsPlain(Enumeration, v);
    SortedIsPlain(CodePoints, v);
    if Canonical(Enumeration, v) == Canonical(CodePoints, v) {
      StringifyInjective(Sorted(Enumeration, v), Sorted(CodePoints, v));
    }
  }

  /** A key with no surrogate-range or later character that is not an array index. */
  predicate OrdinaryKey(key: string) {
    && key != PROTO && !IsIndex(key)
    && forall i :: 0 <= i < |key| ==> key[i] as int < 0xD800
  }

  lemma {:induction false} OrdinaryUnits(key: string)
    requires forall i :: 0 <= i < |key| ==> key[i] as int < 0xD800
    ensures Units(key) == Points(key)
  {
    if key != "" {
      OrdinaryUnits(key[1..]);
      assert Units(key) == [key[0] as int] + Points(key[1..]);
    }
  }

  lemma OrdinaryOrder(a: string, b: string)
    requires OrdinaryKey(a) && OrdinaryKey(b)
    ensures KeyLess(Enumeration, a, b) <==> KeyLess(CodePoints, a, b)
  {
    hide IsIndex;
    OrdinaryUnits(a);
    OrdinaryUnits(b);
    var x, y := KeyCode(Enumeration, a), KeyCode(Enumeration, b);
    assert x[1..] == Points(a) && y[1..] == Points(b);
  }

  predicate OrdinaryKeys(v: Json) {
    match v
    case Arr(items) => forall i :: 0 <= i < |items| ==> OrdinaryKeys(items[i])
    case Obj(fields) =>
      forall i :: 0 <= i < |fields| ==> OrdinaryKey(fields[i].key) && OrdinaryKeys(fields[i].value)
    case _ => true
  }

  /** Values whose keys are all ordinary, such as the protocol's ASCII field names,
      are portable. */
  lemma OrdinaryIsPortable(v: Json)
    requires OrdinaryKeys(v)
    ensures Portable(v)
    decreases v
  {
    hide OrdinaryKey, KeyLess;
    if v.Arr? {
      forall i | 0 <= i < |v.items| ensures Portable(v.items[i]) { OrdinaryIsPortable(v.items[i]); }
    } else if v.Obj? {
      var fs := v.fields;
      forall i, j | 0 <= i < |fs| && 0 <= j < |fs|
        ensures KeyLess(Enumeration, fs[i].key, fs[j].key) <==> KeyLess(CodePoints, fs[i].key, fs[j].key)
      {
        OrdinaryOrder(fs[i].key, fs[j].key);
      }
      forall i | 0 <= i < |fs| ensures fs[i].key != PROTO && Portable(fs[i].value) {
        OrdinaryNotProto(fs[i].key);
        OrdinaryIsPortable(fs[i].value);
      }
    }
  }

  lemma OrdinaryNotProto(key: string)
    requires OrdinaryKey(key)
    ensures key != PROTO
  {}

  /** Array indices are where the languages part: JavaScript enumerates 9 before
      10, Rust sorts "10" before "9". */
  lemma IndexKeysDisagree(x: Json, y: Json)
    requires WellFormed(x) && WellFormed(y) && Plain(x) && Plain(y)
    ensures var v := Obj([Field("9", x), Field("10", y)]);
            Canonical(Enumeration, v) != Canonical(CodePoints, v)
  {
    hide Canonical, Plain, WellFormed;
    var v := Obj([Field("9", x), Field("10", y)]);
    NineBeforeTen();
    assert v.fields[0].key == "9" && v.fields[1].key == "10";
    assert !SameKeyOrder(v.fields);
    TwoFields(x, y);
    LanguagesAgreeExactly(v);
  }

  lemma TwoFields(x: Json, y: Json)
    requires WellFormed(x) && WellFormed(y) && Plain(x) && Plain(y)
    ensures var v := Obj([Field("9", x), Field("10", y)]); WellFormed(v) && Plain(v)
  {}

  lemma NineBeforeTen()
    ensures KeyLess(Enumeration, "9", "10") && !KeyLess(CodePoints, "9", "10")
  {
    assert NatText(9) == "9" && NatText(1) == "1" && NatText(10) == "10";
    assert ParseNat("9") == 9 by { ParseOfNatText(9); }
    assert ParseNat("10") == 10 by { ParseOfNatText(10); }
    IndexKeyLess("9", "10");
    assert Points("9")[0] == '9' as int && Points("10")[0] == '1' as int;
  }
}
