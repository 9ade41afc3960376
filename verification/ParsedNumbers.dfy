/** Numbers, re-read. */
module ParsedNumbers {
  // The agent's JSON reader keeps an integer that fits a 64-bit word and turns every
  // other number into a 64-bit float, which its writer may spell in another way than
  // JavaScript does. That spelling is a parameter here.

  import opened Text
  import opened Json
  import opened Numerals
  import opened JsonText
  import opened JsonReader
  import opened CanonicalJson
  import opened CanonicalLaws

  /** What serde_json writes for the number with the given text, once it has read it
      as a float. */
  type Spelling = string -> string

  /** A float is always written with a point or an exponent. */
  ghost predicate WritesFloats(float: Spelling) { forall t :: IsNumeral(float(t)) }

  predicate IsWord(n: int) { -0x8000_0000_0000_0000 <= n <= 0xFFFF_FFFF_FFFF_FFFF }

  function OnNumbers(f: Json -> Json, v: Json): Json
    decreases v, 1
  {
    match v
    case Int(_) => f(v)
    case Real(_) => f(v)
    case Arr(items) => Arr(OnItems(f, items))
    case Obj(fields) => Obj(OnFields(f, fields))
    case _ => v
  }

  function OnItems(f: Json -> Json, items: seq<Json>): seq<Json>
    decreases items, 0
  {
    if items == [] then [] else [OnNumbers(f, items[0])] + OnItems(f, items[1..])
  }

  function OnFields(f: Json -> Json, fs: seq<Field>): seq<Field>
    decreases fs, 0
  {
    if fs == [] then [] else [OnField(f, fs[0])] + OnFields(f, fs[1..])
  }

  function OnField(f: Json -> Json, g: Field): Field
    decreases g, 0
  {
    Field(g.key, OnNumbers(f, g.value))
  }

  function ReadNumber(float: Spelling, x: Json): Json {
    match x
    case Int(n) => if IsWord(n) then x else Real(float(IntText(n)))
    case Real(literal) => Real(float(literal))
    case _ => Null
  }

  function Reader(float: Spelling): Json -> Json { (x: Json) => ReadNumber(float, x) }

  /** The value that serde_json reads from the text of `v`. */
  function AsParsed(float: Spelling, v: Json): Json { OnNumbers(Reader(float), v) }

  function Blank(): Json -> Json { (x: Json) => Null }

  /** Every number in the value is written by the agent as JavaScript writes it. */
  predicate Steady(float: Spelling, v: Json) {
    match v
    case Int(n) => IsWord(n)
    case Real(literal) => float(literal) == literal
    case Arr(items) => forall i :: 0 <= i < |items| ==> Steady(float, items[i])
    case Obj(fields) => forall i :: 0 <= i < |fields| ==> Steady(float, fields[i].value)
    case _ => true
  }

  // ------------------------------------------------------------ the same shape

  ghost predicate ToScalars(f: Json -> Json) { forall x :: Plain(f(x)) && !f(x).Arr? && !f(x).Obj? }

  lemma ReaderToScalars(float: Spelling)
    requires WritesFloats(float)
    ensures ToScalars(Reader(float)) && ToScalars(Blank())
  {
    hide IsNumeral;
    forall x ensures Plain(Reader(float)(x)) && !Reader(float)(x).Arr? && !Reader(float)(x).Obj? {
      assert Reader(float)(x) == ReadNumber(float, x);
    }
    forall x ensures Plain(Blank()(x)) && !Blank()(x).Arr? && !Blank()(x).Obj? {
      assert Blank()(x) == Null;
    }
  }

  lemma {:induction false} OnItemsAt(f: Json -> Json, items: seq<Json>)
    ensures |OnItems(f, items)| == |items|
    ensures forall i :: 0 <= i < |items| ==> OnItems(f, items)[i] == OnNumbers(f, items[i])
  {
    hide OnNumbers;
    if items != [] { OnItemsAt(f, items[1..]); }
  }

  lemma {:induction false} OnFieldsAt(f: Json -> Json, fs: seq<Field>)
    ensures |OnFields(f, fs)| == |fs|
    ensures forall i :: 0 <= i < |fs| ==> OnFields(f, fs)[i] == OnField(f, fs[i])
  {
    hide OnField;
    if fs != [] { OnFieldsAt(f, fs[1..]); }
  }

  lemma OnNumbersUnfolds(f: Json -> Json, v: Json)
    ensures v.Arr? ==> OnNumbers(f, v) == Arr(OnItems(f, v.items))
    ensures v.Obj? ==> OnNumbers(f, v) == Obj(OnFields(f, v.fields))
    ensures v.Int? || v.Real? ==> OnNumbers(f, v) == f(v)
    ensures !v.Arr? && !v.Obj? && !v.Int? && !v.Real? ==> OnNumbers(f, v) == v
  {}

  lemma {:induction false} OnNumbersTidy(f: Json -> Json, v: Json)
    requires ToScalars(f) && WellFormed(v) && Plain(v)
    ensures WellFormed(OnNumbers(f, v)) && Plain(OnNumbers(f, v))
    decreases v
  {
    hide OnItems, OnFields, OnNumbers;
    OnNumbersUnfolds(f, v);
    if v.Arr? {
      OnItemsAt(f, v.items);
      forall i | 0 <= i < |v.items| ensures WellFormed(OnNumbers(f, v.items[i])) && Plain(OnNumbers(f, v.items[i])) {
        OnNumbersTidy(f, v.items[i]);
      }
    } else if v.Obj? {
      OnFieldsAt(f, v.fields);
      forall i | 0 <= i < |v.fields|
        ensures WellFormed(OnField(f, v.fields[i]).value) && Plain(OnField(f, v.fields[i]).value)
      {
        OnNumbersTidy(f, v.fields[i].value);
      }
    }
  }

  // --------------------------------------------- sorting leaves numbers alone

  lemma {:induction false} InsertOnNumbers(order: Order, f: Json -> Json, g: Field, fs: seq<Field>)
    ensures Insert(order, OnField(f, g), OnFields(f, fs)) == OnFields(f, Insert(order, g, fs))
  {
    hide KeyLess, OnNumbers;
    if fs != [] {
      InsertOnNumbers(order, f, g, fs[1..]);
      assert OnFields(f, fs)[1..] == OnFields(f, fs[1..]);
      assert ([g] + fs)[1..] == fs;
      var rest := Insert(order, g, fs[1..]);
      assert ([fs[0]] + rest)[1..] == rest;
    } else {
      assert [g][1..] == [];
    }
  }

  lemma {:induction false} SortFieldsOnNumbers(order: Order, f: Json -> Json, fs: seq<Field>)
    ensures SortFields(order, OnFields(f, fs)) == OnFields(f, SortFields(order, fs))
  {
    hide Insert, OnField;
    OnFieldsAt(f, fs);
    if fs != [] {
      var front := fs[..|fs| - 1];
      OnFieldsAt(f, front);
      assert OnFields(f, fs)[..|fs| - 1] == OnFields(f, front);
      SortFieldsOnNumbers(order, f, front);
      InsertOnNumbers(order, f, fs[|fs| - 1], SortFields(order, front));
    }
  }

  /** Sorting and changing numbers do not get in each other's way. */
  lemma {:induction false} SortedOnNumbers(order: Order, f: Json -> Json, v: Json)
    requires ToScalars(f)
    ensures Sorted(order, OnNumbers(f, v)) == OnNumbers(f, Sorted(order, v))
    decreases v, 1
  {
    hide OnItems, OnFields, OnNumbers, Sorted, SortedItems, SortedValues, SortFields;
    OnNumbersUnfolds(f, v);
    SortedUnfolds(order, v);
    SortedUnfolds(order, OnNumbers(f, v));
    OnNumbersUnfolds(f, Sorted(order, v));
    if v.Arr? {
      SortedItemsOnNumbers(order, f, v.items);
    } else if v.Obj? {
      SortedValuesOnNumbers(order, f, v.fields);
      SortFieldsOnNumbers(order, f, SortedValues(order, v.fields));
    }
  }

  lemma {:induction false} SortedItemsOnNumbers(order: Order, f: Json -> Json, items: seq<Json>)
    requires ToScalars(f)
    ensures SortedItems(order, OnItems(f, items)) == OnItems(f, SortedItems(order, items))
    decreases items, 0
  {
    hide OnNumbers, Sorted;
    if items != [] {
      SortedOnNumbers(order, f, items[0]);
      SortedItemsOnNumbers(order, f, items[1..]);
      assert OnItems(f, items)[1..] == OnItems(f, items[1..]);
      assert SortedItems(order, items)[1..] == SortedItems(order, items[1..]);
    }
  }

  lemma {:induction false} SortedValuesOnNumbers(order: Order, f: Json -> Json, fs: seq<Field>)
    requires ToScalars(f)
    ensures SortedValues(order, OnFields(f, fs)) == OnFields(f, SortedValues(order, fs))
    decreases fs, 0
  {
    hide OnNumbers, Sorted, Keeps;
    if fs != [] {
      SortedOnNumbers(order, f, fs[0].value);
      SortedValuesOnNumbers(order, f, fs[1..]);
      assert OnFields(f, fs)[1..] == OnFields(f, fs[1..]);
      if Keeps(order, fs[0].key) {
        assert SortedValues(order, fs)[1..] == SortedValues(order, fs[1..]);
      } else {
        assert SortedValues(order, fs) == SortedValues(order, fs[1..]);
      }
    }
  }

  lemma {:induction false} PortableOnNumbers(f: Json -> Json, v: Json)
    requires ToScalars(f)
    ensures Portable(OnNumbers(f, v)) <==> Portable(v)
    decreases v
  {
    hide OnItems, OnFields, OnNumbers, KeyLess;
    OnNumbersUnfolds(f, v);
    if v.Arr? {
      OnItemsAt(f, v.items);
      forall i | 0 <= i < |v.items| ensures Portable(OnNumbers(f, v.items[i])) <==> Portable(v.items[i]) {
        PortableOnNumbers(f, v.items[i]);
      }
      assert Portable(OnNumbers(f, v)) ==> Portable(v) by {
        assert forall i :: 0 <= i < |v.items| ==> OnItems(f, v.items)[i] == OnNumbers(f, v.items[i]);
      }
    } else if v.Obj? {
      OnFieldsAt(f, v.fields);
      var r := OnFields(f, v.fields);
      forall i | 0 <= i < |v.fields|
        ensures r[i].key == v.fields[i].key && (Portable(r[i].value) <==> Portable(v.fields[i].value))
      {
        PortableOnNumbers(f, v.fields[i].value);
      }
    }
  }

  lemma {:induction false} SameOnNumbers(f: Json -> Json, v: Json, w: Json)
    requires ToScalars(f) && Same(v, w)
    ensures Same(OnNumbers(f, v), OnNumbers(f, w))
    decreases v
  {
    hide OnItems, OnFields, OnNumbers;
    OnNumbersUnfolds(f, v);
    OnNumbersUnfolds(f, w);
    if v.Arr? {
      OnItemsAt(f, v.items);
      OnItemsAt(f, w.items);
      forall i | 0 <= i < |v.items| ensures Same(OnNumbers(f, v.items[i]), OnNumbers(f, w.items[i])) {
        SameOnNumbers(f, v.items[i], w.items[i]);
      }
    } else if v.Obj? {
      OnFieldsAt(f, v.fields);
      OnFieldsAt(f, w.fields);
      var a, b := OnFields(f, v.fields), OnFields(f, w.fields);
      forall i | 0 <= i < |a| ensures HasSame(a[i], b) {
        assert HasSame(v.fields[i], w.fields);
        var j :| 0 <= j < |w.fields| && w.fields[j].key == v.fields[i].key
                 && Same(v.fields[i].value, w.fields[j].value);
        SameOnNumbers(f, v.fields[i].value, w.fields[j].value);
        assert b[j].key == a[i].key && Same(a[i].value, b[j].value);
      }
    } else {
      SameReflexive(OnNumbers(f, v));
    }
  }

  // ------------------------------------------------------------- main results

  lemma {:induction false} BlankOfParsed(float: Spelling, v: Json)
    ensures OnNumbers(Blank(), AsParsed(float, v)) == OnNumbers(Blank(), v)
    decreases v
  {
    hide OnItems, OnFields, OnNumbers;
    var w := AsParsed(float, v);
    OnNumbersUnfolds(Reader(float), v);
    OnNumbersUnfolds(Blank(), v);
    OnNumbersUnfolds(Blank(), w);
    if v.Arr? {
      OnItemsAt(Reader(float), v.items);
      OnItemsAt(Blank(), v.items);
      OnItemsAt(Blank(), w.items);
      forall i | 0 <= i < |v.items|
        ensures OnNumbers(Blank(), AsParsed(float, v.items[i])) == OnNumbers(Blank(), v.items[i])
      {
        BlankOfParsed(float, v.items[i]);
      }
      assert OnItems(Blank(), w.items) == OnItems(Blank(), v.items);
    } else if v.Obj? {
      OnFieldsAt(Reader(float), v.fields);
      OnFieldsAt(Blank(), v.fields);
      OnFieldsAt(Blank(), w.fields);
      forall i | 0 <= i < |v.fields|
        ensures OnNumbers(Blank(), AsParsed(float, v.fields[i].value)) == OnNumbers(Blank(), v.fields[i].value)
      {
        BlankOfParsed(float, v.fields[i].value);
      }
      assert OnFields(Blank(), w.fields) == OnFields(Blank(), v.fields);
    } else if v.Int? || v.Real? {
      assert w == ReadNumber(float, v);
      assert Blank()(w) == Null && Blank()(v) == Null;
    }
  }

  /** A value is read as itself exactly when its numbers are steady. */
  lemma {:induction false} SteadyExactly(float: Spelling, v: Json)
    requires WellFormed(v)
    ensures Steady(float, v) ==> AsParsed(float, v) == v
    ensures Same(v, AsParsed(float, v)) ==> Steady(float, v)
    decreases v
  {
    hide OnItems, OnFields, OnNumbers;
    var w := AsParsed(float, v);
    OnNumbersUnfolds(Reader(float), v);
    if v.Arr? {
      OnItemsAt(Reader(float), v.items);
      forall i | 0 <= i < |v.items|
        ensures Steady(float, v.items[i]) ==> w.items[i] == v.items[i]
        ensures Same(v.items[i], w.items[i]) ==> Steady(float, v.items[i])
      {
        SteadyExactly(float, v.items[i]);
      }
      assert Steady(float, v) ==> w.items == v.items;
    } else if v.Obj? {
      OnFieldsAt(Reader(float), v.fields);
      forall i | 0 <= i < |v.fields|
        ensures Steady(float, v.fields[i].value) ==> w.fields[i] == v.fields[i]
        ensures HasSame(v.fields[i], w.fields) ==> Steady(float, v.fields[i].value)
      {
        SteadyExactly(float, v.fields[i].value);
        OwnSame(v.fields, w.fields, i);
      }
      assert Steady(float, v) ==> w.fields == v.fields;
    } else if v.Int? || v.Real? {
      assert w == ReadNumber(float, v);
    }
  }

  /** With equal, distinct keys in equal places, a field's partner is its own. */
  lemma OwnSame(fs: seq<Field>, gs: seq<Field>, i: nat)
    requires DistinctKeys(fs) && |gs| == |fs| && i < |fs|
    requires forall k :: 0 <= k < |fs| ==> gs[k].key == fs[k].key
    ensures HasSame(fs[i], gs) ==> Same(fs[i].value, gs[i].value)
  {}

  /** The agent's canonical text of what it reads is the signer's canonical text
      exactly when the value is portable and its numbers are steady. */
  lemma ParsedAgreesExactly(float: Spelling, v: Json)
    requires WritesFloats(float) && WellFormed(v) && Plain(v)
    ensures Canonical(CodePoints, AsParsed(float, v)) == Canonical(Enumeration, v)
            <==> Portable(v) && Steady(float, v)
  {
    hide Stringify, Sorted, Plain, Portable, WellFormed, OnNumbers, Steady, Same, Tidy;
    var f, w := Reader(float), AsParsed(float, v);
    ReaderToScalars(float);
    OnNumbersTidy(f, v);
    SteadyExactly(float, v);
    SortedAgree(v);
    SortedIsPlain(CodePoints, w);
    SortedIsPlain(Enumeration, v);
    if Canonical(CodePoints, w) == Canonical(Enumeration, v) {
      StringifyInjective(Sorted(CodePoints, w), Sorted(Enumeration, v));
      SortedOnNumbers(CodePoints, Blank(), w);
      SortedOnNumbers(CodePoints, Blank(), v);
      SortedOnNumbers(Enumeration, Blank(), v);
      BlankOfParsed(float, v);
      OnNumbersTidy(Blank(), v);
      SortedAgree(OnNumbers(Blank(), v));
      PortableOnNumbers(Blank(), v);
      TidyUnderCodePoints(v);
      TidyUnderCodePoints(w);
      SortedImpliesSame(CodePoints, v, w);
    }
  }

  /** An integer beyond 64 bits, such as 18446744073709552000, is read as a float and
      never written in digits again. */
  lemma BigIntegersDisagree(float: Spelling, n: int)
    requires WritesFloats(float) && !IsWord(n)
    ensures Canonical(CodePoints, AsParsed(float, Int(n))) != Canonical(Enumeration, Int(n))
  {
    ParsedAgreesExactly(float, Int(n));
  }

  lemma {:induction false} TidyUnderCodePoints(v: Json)
    requires WellFormed(v)
    ensures Tidy(CodePoints, v)
    decreases v
  {
    if v.Arr? {
      forall i | 0 <= i < |v.items| ensures Tidy(CodePoints, v.items[i]) { TidyUnderCodePoints(v.items[i]); }
    } else if v.Obj? {
      forall i | 0 <= i < |v.fields|
        ensures Keeps(CodePoints, v.fields[i].key) && Tidy(CodePoints, v.fields[i].value)
      {
        TidyUnderCodePoints(v.fields[i].value);
      }
    }
  }
}
