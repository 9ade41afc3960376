/** What comes back from a printed block: maps, items and nesting, structurally, and
    why a sequence under a key never does. */
module YamlRoundTrip {
  import opened Text
  import opened Json
  import opened YamlScalar
  import opened YamlPrinter
  import opened YamlParser
  import opened YamlLayout
  import opened Options

  predicate NonEmptySequence(v: Json) { v.Arr? && v.items != [] }

  predicate NonEmptyContainer(v: Json) { NonEmptySequence(v) || (v.Obj? && v.fields != []) }

  /** The nesting the parser understands: no non-empty sequence directly under a
      key (it is printed at the key's own column), no empty sequence as an item
      (it is printed as a bare dash). */
  predicate Shaped(v: Json) {
    match v
    case Arr(items) => ShapedItems(items)
    case Obj(fields) =>
      forall i :: 0 <= i < |fields| ==> !NonEmptySequence(fields[i].value) && Shaped(fields[i].value)
    case _ => true
  }

  predicate ShapedItems(items: seq<Json>) {
    forall i :: 0 <= i < |items| ==> items[i] != Arr([]) && Shaped(items[i])
  }

  /** The values that a document can be. */
  predicate IsDocument(v: Json) { v.Obj? || NonEmptySequence(v) }

  /** No object has a property of its own called `__proto__`. */
  predicate NoProto(v: Json) {
    match v
    case Arr(items) => forall i :: 0 <= i < |items| ==> NoProto(items[i])
    case Obj(fields) => NoProtoFields(fields)
    case _ => true
  }

  predicate NoProtoFields(fields: seq<Field>) {
    forall i :: 0 <= i < |fields| ==> fields[i].key != PROTO && NoProto(fields[i].value)
  }

  predicate Survives(v: Json) { IsDocument(v) && Clean(v) && NoProto(v) && Shaped(v) }

  // ---------------------------------------------------- parser equations

  ghost predicate Ends(rest: seq<Line>, column: int) { rest != [] ==> rest[0].indent < column }

  /** A key with its value on its own line. */
  lemma PairLine(col: int, key: string, t: string, rest: seq<Line>, base: int, o: Draft)
    requires OneLine(key) && Calm(t) && col >= base
    ensures MapOf([Line(col, FormatText(key) + ": " + t)] + rest, base, o)
            == MapOf(rest, base, Put(o, key, ScalarOf(t)))
  {
    hide Calm, FormatText, KeyValueOf, ScalarOf, Put, UnquoteKey, ChildOf;
    var k := FormatText(key);
    KeyRoundTrip(key);
    KeyedTextSplits(k, t);
    CalmFacts(t);
    assert ([Line(col, k + ": " + t)] + rest)[1..] == rest;
  }

  lemma Pieces(first: Line, child: seq<Line>, rest: seq<Line>)
    ensures var ls, n := [first] + child + rest, |child|;
            ls[0] == first && ls[1..] == child + rest && ls[1 + n..] == rest && ls[1..1 + n] == child
  {}

  lemma ChildOfPieces(first: Line, child: seq<Line>, rest: seq<Line>)
    ensures ChildOf([first] + child + rest, |child|)
            == if child == [] then Parsed(Null, true) else BlockOf(child, child[0].indent)
  {
    hide BlockOf;
    Pieces(first, child, rest);
  }

  lemma MapOfPieces(first: Line, child: seq<Line>, rest: seq<Line>, k: string, base: int, o: Draft)
    requires first.indent >= base && KeyValueOf(first.content) == Some(KeyValue(k, ""))
    requires Ends(rest, base + 1) && forall i :: 0 <= i < |child| ==> child[i].indent >= base + 1
    ensures var ls := [first] + child + rest;
            MapOf(ls, base, o) == MapOf(rest, base, Put(o, UnquoteKey(k), ChildOf(ls, |child|)))
  {
    hide KeyValueOf, ScalarOf, Put, UnquoteKey, ChildOf, Deeper;
    Pieces(first, child, rest);
    DeeperIs(child + rest, base + 1, |child|);
  }

  /** A key alone on its line, above the lines `child` of its block. */
  lemma NestedLines(col: int, key: string, child: seq<Line>, rest: seq<Line>, base: int, o: Draft)
    requires OneLine(key) && col >= base && Ends(rest, base + 1)
    requires forall i :: 0 <= i < |child| ==> child[i].indent >= base + 1
    ensures MapOf([Line(col, FormatText(key) + ":")] + child + rest, base, o)
            == MapOf(rest, base, Put(o, key,
                 if child == [] then Parsed(Null, true) else BlockOf(child, child[0].indent)))
  {
    hide Calm, FormatText, KeyValueOf, MapOf, ChildOf, Put, UnquoteKey, BlockOf;
    var k := FormatText(key);
    var first := Line(col, k + ":");
    KeyRoundTrip(key);
    KeyAloneSplits(k);
    MapOfPieces(first, child, rest, k, base, o);
    ChildOfPieces(first, child, rest);
  }

  /** A sequence item: its dash line and the deeper lines below it. */
  lemma ItemLine(first: Line, deeper: seq<Line>, rest: seq<Line>, base: int)
    requires first.indent >= base && StartsWithDash(first.content) && Ends(rest, base + 1)
    requires forall i :: 0 <= i < |deeper| ==> deeper[i].indent >= base + 1
    ensures var ls := [first] + deeper + rest;
            SequenceOf(ls, base) == [ItemOf(ls, |deeper|, base)] + SequenceOf(rest, base)
  {
    hide ItemOf, Deeper;
    var ls := [first] + deeper + rest;
    var n := |deeper|;
    assert ls[1..] == deeper + rest && ls[1 + n..] == rest;
    DeeperIs(ls[1..], base + 1, n);
  }

  lemma ItemOfNested(first: Line, deeper: seq<Line>, rest: seq<Line>, base: int)
    requires first.content == "-"
    ensures ItemOf([first] + deeper + rest, |deeper|, base)
            == if deeper == [] then Null else BlockOf(deeper, deeper[0].indent).value
  {
    hide BlockOf, KeyValueOf, ParseScalar, Trim;
    TrimOfNothing();
    var ls := [first] + deeper + rest;
    assert ls[0] == first && "-"[1..] == "";
    assert ls[1..1 + |deeper|] == deeper;
  }

  lemma ItemOfText(col: int, t: string, rest: seq<Line>, base: int)
    requires Calm(t)
    ensures ItemOf([Line(col, "- " + t)] + [] + rest, 0, base) == ParseScalar(t)
  {
    hide BlockOf, KeyValueOf, ParseScalar, Trim, Calm;
    CalmFacts(t);
    DashedTrims(t);
    CalmHasNoKey(t);
  }

  lemma ItemOfMap(col: int, t: string, deeper: seq<Line>, rest: seq<Line>, base: int)
    requires Trimmed(t) && KeyValueOf(t).Some?
    ensures ItemOf([Line(col, "- " + t)] + deeper + rest, |deeper|, base)
            == Obj(MapOf([Line(0, t)] + Shift(deeper, base + 2), 0, EMPTY).fields)
  {
    hide MapOf, KeyValueOf, ParseScalar, Trim, Shift;
    DashedTrims(t);
    var ls := [Line(col, "- " + t)] + deeper + rest;
    assert ls[1..1 + |deeper|] == deeper;
  }

  // ------------------------------------------- what comes back, structurally

  ghost predicate Printable(v: Json) { Clean(v) && NoProto(v) && WellFormed(v) }

  ghost predicate PrintableFields(fs: seq<Field>) {
    && CleanFields(fs) && DistinctKeys(fs)
    && forall i :: 0 <= i < |fs| ==> fs[i].key != PROTO && Printable(fs[i].value)
  }

  ghost predicate PrintableItems(items: seq<Json>) {
    forall i :: 0 <= i < |items| ==> Printable(items[i])
  }

  lemma PrintableParts(v: Json)
    requires Printable(v)
    ensures v.Arr? ==> PrintableItems(v.items)
    ensures v.Obj? ==> PrintableFields(v.fields)
  {
    if v.Obj? {
      assert CleanFields(v.fields) && NoProtoFields(v.fields);
    }
  }

  lemma MapBlockOf(fs: seq<Field>, n: nat, base: int)
    requires fs != [] && CleanFields(fs)
    ensures Fields(fs, n) != []
    ensures BlockOf(Fields(fs, n), base) == MapDone(MapOf(Fields(fs, n), base, EMPTY))
  {
    hide FormatText, FormatScalar, MapOf, Clean, UnquoteKey, Calm;
    KeyRoundTrip(fs[0].key);
    var k := FormatText(fs[0].key);
    assert k != "" by { KeyNotEmpty(fs[0].key); }
    var first := Keyed("", 2 * n, fs[0].key, fs[0].value, n)[0];
    assert first.content[0] == k[0];
    assert Fields(fs, n)[0] == first;
  }

  lemma KeyNotEmpty(key: string)
    requires OneLine(key)
    ensures FormatText(key) != ""
  {
    KeyRoundTrip(key);
  }

  lemma SequenceBlockOf(items: seq<Json>, n: nat, base: int)
    requires items != []
    ensures Items(items, n) != []
    ensures BlockOf(Items(items, n), base).value == Arr(SequenceOf(Items(items, n), base))
  {
    hide Item, SequenceOf;
    ItemStartsWithDash(items[0], n);
  }

  lemma ItemStartsWithDash(item: Json, n: nat)
    ensures Item(item, n) != [] && StartsWithDash(Item(item, n)[0].content)
  {
    hide FormatText, FormatScalar, Block, Fields;
  }

  /** A printed block is read back as itself exactly when its nesting is one the
      parser understands. */
  lemma {:induction false} BlockBack(v: Json, n: nat)
    requires Printable(v) && NonEmptyContainer(v)
    ensures Block(v, n) != []
    ensures BlockOf(Block(v, n), 2 * n).value == v <==> Shaped(v)
    decreases v, 1
  {
    hide BlockOf, MapOf, SequenceOf, Fields, Items, Printable;
    PrintableParts(v);
    if v.Arr? {
      SequenceBlockOf(v.items, n, 2 * n);
      ItemsBack(v.items, n);
    } else {
      MapBlockOf(v.fields, n, 2 * n);
      var bad := FirstBad(v.fields);
      if bad < |v.fields| {
        BadMapLost(v, bad, n);
      } else {
        FieldsBack(v.fields, n, EMPTY);
        assert EMPTY.fields + v.fields == v.fields;
      }
    }
  }

  /** The value that a key is given when its printed lines are read. */
  ghost function ChildBack(child: Json, n: nat): Json {
    if child.Obj? && child.fields != [] then
      (if Block(child, n + 1) == [] then Null else BlockOf(Block(child, n + 1), 2 * (n + 1)).value)
    else child
  }

  lemma Brackets(k: string)
    ensures "" + k + ":" == k + ":" && "" + k + ": " == k + ": "
    ensures "" + k + ": []" == k + ": " + "[]"
    ensures "" + k + ": {}" == k + ": " + "{}"
  {
    assert ": []" == ": " + "[]" && ": {}" == ": " + "{}" && "" + k == k;
  }

  lemma KeyedBack(key: string, child: Json, n: nat, rest: seq<Line>, o: Draft)
    requires OneLine(key) && key != PROTO && Printable(child) && !NonEmptySequence(child)
    requires Ends(rest, 2 * n + 1)
    ensures MapOf(Keyed("", 2 * n, key, child, n) + rest, 2 * n, o)
            == MapOf(rest, 2 * n, With(o, key, ChildBack(child, n)))
  {
    hide MapOf, With, BlockOf, FormatText, FormatScalar, ParseScalar, Calm, Block;
    var k := FormatText(key);
    if child.Obj? && child.fields != [] {
      BlockIsGood(child, n + 1);
      NestedLines(2 * n, key, Block(child, n + 1), rest, 2 * n, o);
      Brackets(k);
      assert Keyed("", 2 * n, key, child, n) == [Line(2 * n, k + ":")] + Block(child, n + 1);
    } else {
      InlineTextIsCalm(child);
      InlineTextReads(child);
      PairLine(2 * n, key, InlineText(child), rest, 2 * n, o);
      Brackets(k);
      assert Keyed("", 2 * n, key, child, n) == [Line(2 * n, k + ": " + InlineText(child))];
    }
  }

  lemma InlineTextReads(child: Json)
    requires Clean(child) && !NonEmptyContainer(child)
    ensures ParseScalar(InlineText(child)) == child
  {
    hide ParseScalar;
    if IsScalar(child) { ScalarIsCalm(child); } else { BracketsRead(); }
  }

  lemma BracketsRead()
    ensures ParseScalar("[]") == Arr([]) && ParseScalar("{}") == Obj([])
  {
    hide Trim;
    TrimOfTrimmed("[]");
    TrimOfTrimmed("{}");
  }

  lemma FieldsEnd(fs: seq<Field>, n: nat)
    requires PrintableFields(fs)
    ensures Ends(Fields(fs, n), 2 * n + 1)
  {
    hide Keyed, GoodLines, CleanFields;
    FieldsAreGood(fs, n);
  }

  lemma PrintableTail(fs: seq<Field>)
    requires PrintableFields(fs) && fs != []
    ensures PrintableFields(fs[1..]) && OneLine(fs[0].key) && fs[0].key != PROTO
    ensures Printable(fs[0].value) && !HasKey(fs[1..], fs[0].key)
  {
    hide Printable, Clean;
  }

  ghost predicate Apart(obj: seq<Field>, fs: seq<Field>) {
    forall i :: 0 <= i < |fs| ==> !HasKey(obj, fs[i].key)
  }

  lemma ApartTail(obj: seq<Field>, fs: seq<Field>, x: Json)
    requires fs != [] && Apart(obj, fs) && DistinctKeys(fs)
    ensures Apart(obj + [Field(fs[0].key, x)], fs[1..])
  {}

  lemma ChildBackExact(child: Json, n: nat)
    requires Printable(child) && !NonEmptySequence(child)
    ensures ChildBack(child, n) == child <==> Shaped(child)
    decreases child, 2
  {
    hide Block, BlockOf;
    if child.Obj? && child.fields != [] { BlockBack(child, n + 1); }
  }

  lemma MapNothing(base: int, o: Draft)
    ensures MapOf([], base, o) == o && SequenceOf([], base) == []
  {}

  predicate ShapedValues(fs: seq<Field>) {
    forall i :: 0 <= i < |fs| ==> Shaped(fs[i].value)
  }

  lemma ShapedHead(fs: seq<Field>)
    requires fs != []
    ensures ShapedValues(fs) <==> Shaped(fs[0].value) && ShapedValues(fs[1..])
  {
    hide Shaped;
    assert forall i :: 0 < i < |fs| ==> fs[i] == fs[1..][i - 1];
  }

  lemma OneMore(r: seq<Field>, obj: seq<Field>, fs: seq<Field>, x: Json)
    requires fs != []
    requires var obj' := obj + [Field(fs[0].key, x)];
             |r| == |obj'| + |fs| - 1 && r[..|obj'|] == obj'
    ensures r[..|obj|] == obj
    ensures r == obj + fs <==> x == fs[0].value && r == obj + [Field(fs[0].key, x)] + fs[1..]
  {
    var obj' := obj + [Field(fs[0].key, x)];
    assert r[..|obj|] == r[..|obj'|][..|obj|];
    assert r[|obj|] == obj'[|obj|] && (obj + fs)[|obj|] == fs[0];
    assert x == fs[0].value ==> obj' + fs[1..] == obj + fs;
  }

  /** Without a bad field, every field comes back under its own key, in place. */
  lemma {:induction false} FieldsBack(fs: seq<Field>, n: nat, o: Draft)
    requires PrintableFields(fs) && Apart(o.fields, fs)
    requires forall i :: 0 <= i < |fs| ==> !NonEmptySequence(fs[i].value)
    ensures var r, obj := MapOf(Fields(fs, n), 2 * n, o).fields, o.fields;
            |r| == |obj| + |fs| && r[..|obj|] == obj && (r == obj + fs <==> ShapedValues(fs))
    decreases fs, 0
  {
    hide Printable, CleanFields, ChildBack, Keyed, Shaped, SetField, HasKey, MapOf;
    var obj := o.fields;
    if fs == [] {
      MapNothing(2 * n, o);
      assert obj + fs == obj;
    } else {
      PrintableTail(fs);
      FieldsEnd(fs[1..], n);
      var x := ChildBack(fs[0].value, n);
      var obj' := obj + [Field(fs[0].key, x)];
      KeyedBack(fs[0].key, fs[0].value, n, Fields(fs[1..], n), o);
      assert With(o, fs[0].key, x).fields == obj';
      ApartTail(obj, fs, x);
      ChildBackExact(fs[0].value, n);
      FieldsBack(fs[1..], n, With(o, fs[0].key, x));
      OneMore(MapOf(Fields(fs[1..], n), 2 * n, With(o, fs[0].key, x)).fields, obj, fs, x);
      ShapedHead(fs);
    }
  }

  // ------------------------------------------------- sequences come back

  ghost function ItemBack(item: Json, n: nat): Json {
    if NonEmptySequence(item) then
      (if Block(item, n + 1) == [] then Null else BlockOf(Block(item, n + 1), 2 * (n + 1)).value)
    else if item.Arr? then Null
    else if item.Obj? && item.fields != [] then Obj(MapOf(Fields(item.fields, 0), 0, EMPTY).fields)
    else item
  }

  lemma ItemLinesBack(item: Json, n: nat, rest: seq<Line>)
    requires Printable(item) && Ends(rest, 2 * n + 1)
    ensures SequenceOf(Item(item, n) + rest, 2 * n) == [ItemBack(item, n)] + SequenceOf(rest, 2 * n)
  {
    hide SequenceOf, ItemOf, BlockOf, MapOf, Fields, Block, FormatScalar, ParseScalar, Calm;
    if item.Arr? {
      var first, deeper := Line(2 * n, "-"), Block(item, n + 1);
      BlockIsGood(item, n + 1);
      ItemLine(first, deeper, rest, 2 * n);
      ItemOfNested(first, deeper, rest, 2 * n);
      if item.items == [] { EmptyBlock(item, n + 1); }
    } else if item.Obj? && item.fields != [] {
      MapItemBack(item, n, rest);
    } else {
      InlineTextIsCalm(item);
      InlineTextReads(item);
      var t := InlineText(item);
      assert "- {}" == "- " + "{}";
      assert Item(item, n) == [Line(2 * n, "- " + t)] + [];
      ItemLine(Line(2 * n, "- " + t), [], rest, 2 * n);
      ItemOfText(2 * n, t, rest, 2 * n);
    }
  }

  lemma EmptyBlock(v: Json, n: nat)
    requires v.Arr? && v.items == []
    ensures Block(v, n) == []
  {}

  lemma MapItemBack(item: Json, n: nat, rest: seq<Line>)
    requires Printable(item) && Ends(rest, 2 * n + 1) && item.Obj? && item.fields != []
    ensures SequenceOf(Item(item, n) + rest, 2 * n) == [ItemBack(item, n)] + SequenceOf(rest, 2 * n)
  {
    hide SequenceOf, ItemOf, BlockOf, MapOf, Block, FormatScalar, ParseScalar, Calm, Shift, KeyValueOf,
      FormatText, Keyed;
    var fs := item.fields;
    var ls := Fields(fs, n + 1);
    ItemOfFields(item, n);
    FieldsAreGood(fs, n + 1);
    ItemIsGood(item, n);
    var t := ls[0].content;
    FirstKeyLine(fs, n + 1);
    ItemLine(Line(2 * n, "- " + t), ls[1..], rest, 2 * n);
    ItemOfMap(2 * n, t, ls[1..], rest, 2 * n);
    FieldsShift(fs, 0, n + 1);
    ShiftHead(ls[0], ls[1..], 2 * (n + 1));
    assert ls == [ls[0]] + ls[1..];
  }

  /** The lines of a map item are those of the map one level deeper, with a dash
      in front of the first. */
  lemma ItemOfFields(item: Json, n: nat)
    requires item.Obj? && item.fields != []
    ensures var ls := Fields(item.fields, n + 1);
            ls != [] && Item(item, n) == [Line(2 * n, "- " + ls[0].content)] + ls[1..]
  {
    hide FormatText, FormatScalar, Block, Keyed;
    var f := item.fields[0];
    HeadMoves(2 * n, f.key, f.value, n + 1);
    var a := Keyed("", 2 * (n + 1), f.key, f.value, n + 1);
    assert (a + Fields(item.fields[1..], n + 1))[1..] == a[1..] + Fields(item.fields[1..], n + 1);
  }

  lemma HeadMoves(col: nat, key: string, child: Json, n: nat)
    ensures var a := Keyed("", 2 * n, key, child, n);
            a != [] && Keyed("- ", col, key, child, n) == [Line(col, "- " + a[0].content)] + a[1..]
  {
    hide FormatText, FormatScalar, Block;
    var k := FormatText(key);
    assert "- " + k + ":" == "- " + ("" + k + ":");
    assert "- " + k + ": []" == "- " + ("" + k + ": []");
    assert "- " + k + ": {}" == "- " + ("" + k + ": {}");
    if IsScalar(child) {
      var t := FormatScalar(child);
      assert "- " + k + ": " + t == "- " + ("" + k + ": " + t);
    }
  }

  lemma KeyLineContent(key: string, v: Json, n: nat)
    ensures var a, k := Keyed("", 2 * n, key, v, n), FormatText(key);
            a != [] && (a[0].content == k + ":" || a[0].content == k + ": " + InlineText(v))
  {
    hide FormatText, FormatScalar, Block;
    Brackets(FormatText(key));
  }

  lemma KeyLineSplits(k: string, t: string, c: string)
    requires Calm(k) && Calm(t) && (c == k + ":" || c == k + ": " + t)
    ensures Trimmed(c) && KeyValueOf(c).Some?
  {
    hide Calm, KeyValueOf;
    CalmFacts(k);
    CalmFacts(t);
    KeyAloneSplits(k);
    KeyedTextSplits(k, t);
  }

  lemma FirstKeyLine(fs: seq<Field>, n: nat)
    requires fs != [] && CleanFields(fs)
    ensures Fields(fs, n) != []
    ensures var t := Fields(fs, n)[0].content; Trimmed(t) && KeyValueOf(t).Some?
  {
    hide FormatText, Keyed, KeyValueOf, Calm, Clean, InlineText, Trimmed;
    var v := fs[0].value;
    KeyRoundTrip(fs[0].key);
    InlineTextIsCalm(v);
    KeyLineContent(fs[0].key, v, n);
    var a := Keyed("", 2 * n, fs[0].key, v, n);
    KeyLineSplits(FormatText(fs[0].key), InlineText(v), a[0].content);
  }

  lemma ItemBackExact(item: Json, n: nat)
    requires Printable(item)
    ensures ItemBack(item, n) == item <==> item != Arr([]) && Shaped(item)
    decreases item, 2
  {
    hide Block, BlockOf, MapOf, Fields, Printable, Shaped;
    PrintableParts(item);
    if NonEmptySequence(item) {
      BlockBack(item, n + 1);
    } else if item.Obj? && item.fields != [] {
      BlockBack(item, 0);
      MapBlockOf(item.fields, 0, 0);
      MapBlockIs(item);
    } else {
      SmallIsShaped(item);
    }
  }

  lemma MapBlockIs(v: Json)
    requires v.Obj?
    ensures Block(v, 0) == Fields(v.fields, 0)
  {}

  lemma SmallIsShaped(v: Json)
    requires !NonEmptyContainer(v)
    ensures Shaped(v)
  {}

  lemma {:induction false} ItemsBack(items: seq<Json>, n: nat)
    requires PrintableItems(items)
    ensures var r := SequenceOf(Items(items, n), 2 * n);
            |r| == |items| && (r == items <==> ShapedItems(items))
    decreases items, 0
  {
    hide Printable, Item, ItemBack, Shaped, SequenceOf;
    MapNothing(2 * n, EMPTY);
    if items != [] {
      ItemsEnd(items[1..], n);
      ItemLinesBack(items[0], n, Items(items[1..], n));
      ItemBackExact(items[0], n);
      ItemsBack(items[1..], n);
      assert items == [items[0]] + items[1..];
      assert forall i :: 0 < i < |items| ==> items[i] == items[1..][i - 1];
    }
  }

  lemma ItemsEnd(items: seq<Json>, n: nat)
    requires PrintableItems(items)
    ensures Ends(Items(items, n), 2 * n + 1)
  {
    hide Item, GoodLines;
    ItemsAreGood(items, n);
  }

  // --------------------------------- a sequence under a key never comes back

  lemma LookupAll(fs: seq<Field>)
    requires DistinctKeys(fs)
    ensures forall i :: 0 <= i < |fs| ==> Lookup(fs, fs[i].key) == Some(fs[i].value)
  {}

  lemma {:induction false} WeightOfUpdate(fs: seq<Field>, i: nat, f: Field)
    requires i < |fs|
    ensures FieldsWeight(fs[i := f]) + Weight(fs[i].value) == FieldsWeight(fs) + Weight(f.value)
  {
    hide Weight;
    if i > 0 {
      WeightOfUpdate(fs[1..], i - 1, f);
      assert fs[i := f][1..] == fs[1..][i - 1 := f];
    } else {
      assert fs[i := f][1..] == fs[1..];
    }
  }

  lemma {:induction false} WeightOfAppend(fs: seq<Field>, f: Field)
    ensures FieldsWeight(fs + [f]) == FieldsWeight(fs) + 1 + Weight(f.value)
  {
    hide Weight;
    if fs != [] {
      WeightOfAppend(fs[1..], f);
      assert (fs + [f])[1..] == fs[1..] + [f];
    } else {
      assert (fs + [f])[1..] == [];
    }
  }

  /** An assignment adds at most one line more than its value; one that replaces
      a value adds no line for the key. */
  lemma PutWeight(o: Draft, key: string, p: Parsed)
    ensures FieldsWeight(Put(o, key, p).fields) <= FieldsWeight(o.fields) + 1 + Weight(p.value)
    ensures HasKey(o.fields, key) || (key == PROTO && o.accessor) ==>
      FieldsWeight(Put(o, key, p).fields) <= FieldsWeight(o.fields) + Weight(p.value)
  {
    hide Weight, FieldsWeight;
    var obj, x := o.fields, p.value;
    var i := IndexOfKey(obj, key);
    WeightOfAppend(obj, Field(key, x));
    if i < |obj| { WeightOfUpdate(obj, i, Field(key, x)); }
  }

  lemma ScalarWeight(t: string)
    ensures Weight(ParseScalar(t)) == 0 && Weight(ScalarOf(t).value) == 0
  {
    hide Trim;
    ReadScalarWeight(Trim(t));
  }

  lemma ReadScalarWeight(s: string)
    ensures Weight(ReadScalar(s)) == 0
  {}

  /** The parser never makes more lines than it read. */
  lemma {:induction false} BlockOfWeight(ls: seq<Line>, base: int)
    requires ls != []
    ensures Weight(BlockOf(ls, base).value) <= |ls|
    decreases |ls|, 3
  {
    hide MapOf, SequenceOf;
    if StartsWithDash(ls[0].content) {
      SequenceOfWeight(ls, base);
    } else {
      MapOfWeight(ls, base, EMPTY);
    }
  }

  lemma {:induction false} ChildOfWeight(ls: seq<Line>, n: nat)
    requires n < |ls|
    ensures Weight(ChildOf(ls, n).value) <= n
    decreases n, 4
  {
    hide BlockOf;
    if n > 0 { BlockOfWeight(ls[1..1 + n], ls[1].indent); }
  }

  lemma {:induction false} MapOfWeight(ls: seq<Line>, base: int, o: Draft)
    ensures FieldsWeight(MapOf(ls, base, o).fields) <= FieldsWeight(o.fields) + |ls|
    decreases |ls|, 0
  {
    hide KeyValueOf, UnquoteKey, ScalarOf, ChildOf, Put, Weight, FieldsWeight;
    if ls != [] && ls[0].indent >= base {
      match KeyValueOf(ls[0].content)
      case None => MapOfWeight(ls[1..], base, o);
      case Some(kv) =>
        var key := UnquoteKey(kv.key);
        if kv.value == "" {
          var n := Deeper(ls[1..], base + 1);
          ChildOfWeight(ls, n);
          PutWeight(o, key, ChildOf(ls, n));
          MapOfWeight(ls[1 + n..], base, Put(o, key, ChildOf(ls, n)));
        } else {
          ScalarWeight(kv.value);
          PutWeight(o, key, ScalarOf(kv.value));
          MapOfWeight(ls[1..], base, Put(o, key, ScalarOf(kv.value)));
        }
    }
  }

  lemma {:induction false} SequenceOfWeight(ls: seq<Line>, base: int)
    ensures ItemsWeight(SequenceOf(ls, base)) <= |ls|
    decreases |ls|, 2
  {
    hide ItemOf, ItemWeight;
    if ls != [] && ls[0].indent >= base && StartsWithDash(ls[0].content) {
      var n := Deeper(ls[1..], base + 1);
      ItemOfWeight(ls, n, base);
      SequenceOfWeight(ls[1 + n..], base);
    }
  }

  lemma {:induction false} ItemOfWeight(ls: seq<Line>, n: nat, base: int)
    requires n < |ls| && ls[0].content != ""
    ensures ItemWeight(ItemOf(ls, n, base)) <= 1 + n
    decreases 1 + n, 1
  {
    hide Trim, KeyValueOf, ChildOf, MapOf, ParseScalar;
    var rest := Trim(ls[0].content[1..]);
    if rest == "" {
      ChildOfWeight(ls, n);
    } else if KeyValueOf(rest).Some? {
      MapOfWeight([Line(0, rest)] + Shift(ls[1..1 + n], base + 2), 0, EMPTY);
    } else {
      ScalarWeight(rest);
    }
  }

  lemma SetLookup(obj: seq<Field>, key: string, x: Json, other: string)
    requires HasKey(obj, other)
    ensures HasKey(SetField(obj, key, x), other)
    ensures other != key ==> Lookup(SetField(obj, key, x), other) == Lookup(obj, other)
  {
    var r := SetField(obj, key, x);
    var i := IndexOfKey(obj, other);
    assert r[i].key == other;
    assert forall j :: 0 <= j < i ==> r[j].key != other || other == key;
  }

  lemma PutLookup(o: Draft, key: string, p: Parsed, other: string)
    requires HasKey(o.fields, other)
    ensures HasKey(Put(o, key, p).fields, other)
    ensures other != key || (key == PROTO && o.accessor) ==>
      Lookup(Put(o, key, p).fields, other) == Lookup(o.fields, other)
  {
    hide SetField, HasKey, Lookup;
    SetLookup(o.fields, key, p.value, other);
  }

  /** Once a key has a value, the rest of the loop either leaves that value alone
      or ends with fewer lines' worth of fields than there were lines. */
  lemma {:induction false} KeptOrLighter(ls: seq<Line>, base: int, o: Draft, key: string)
    requires HasKey(o.fields, key)
    ensures var r := MapOf(ls, base, o).fields;
            Lookup(r, key) == Lookup(o.fields, key) || FieldsWeight(r) < FieldsWeight(o.fields) + |ls|
    decreases |ls|
  {
    hide KeyValueOf, UnquoteKey, ScalarOf, ChildOf, Put, Weight, FieldsWeight, Lookup, HasKey, Deeper;
    if ls != [] && ls[0].indent >= base {
      match KeyValueOf(ls[0].content)
      case None => KeptOrLighter(ls[1..], base, o, key);
      case Some(kv) =>
        var k := UnquoteKey(kv.key);
        var n := if kv.value == "" then Deeper(ls[1..], base + 1) else 0;
        var p := if kv.value == "" then ChildOf(ls, n) else ScalarOf(kv.value);
        var o' := Put(o, k, p);
        if kv.value == "" { ChildOfWeight(ls, n); } else { ScalarWeight(kv.value); }
        PutWeight(o, k, p);
        PutLookup(o, k, p, key);
        assert MapOf(ls, base, o) == MapOf(ls[1 + n..], base, o');
        if k == key {
          MapOfWeight(ls[1 + n..], base, o');
        } else {
          KeptOrLighter(ls[1 + n..], base, o', key);
        }
    }
  }

  // ------------------------------------------- a `__proto__` key costs a line

  lemma SetNoProto(obj: seq<Field>, key: string, x: Json)
    requires NoProtoFields(obj) && key != PROTO && NoProto(x)
    ensures NoProtoFields(SetField(obj, key, x))
  {
    hide NoProto;
  }

  lemma PutNoProto(o: Draft, key: string, p: Parsed)
    requires o.accessor && NoProtoFields(o.fields) && (key != PROTO ==> NoProto(p.value))
    ensures NoProtoFields(Put(o, key, p).fields) && (key != PROTO ==> Put(o, key, p).accessor)
  {
    hide SetField, NoProto, NoProtoFields;
    if key != PROTO { SetNoProto(o.fields, key, p.value); }
  }

  /** An own property `__proto__` is made only after an assignment that took the
      accessor away, and that one spends its lines on no property. */
  lemma {:induction false} BlockProto(ls: seq<Line>, base: int)
    requires ls != []
    ensures NoProto(BlockOf(ls, base).value) || Weight(BlockOf(ls, base).value) < |ls|
    decreases |ls|, 3
  {
    hide MapOf, SequenceOf;
    if StartsWithDash(ls[0].content) {
      SequenceProto(ls, base);
    } else {
      MapProto(ls, base, EMPTY);
    }
  }

  lemma {:induction false} ChildProto(ls: seq<Line>, n: nat)
    requires n < |ls|
    ensures NoProto(ChildOf(ls, n).value) || Weight(ChildOf(ls, n).value) < n
    decreases n, 4
  {
    hide BlockOf;
    if n > 0 { BlockProto(ls[1..1 + n], ls[1].indent); }
  }

  lemma {:induction false} MapProto(ls: seq<Line>, base: int, o: Draft)
    requires o.accessor && NoProtoFields(o.fields)
    ensures var r := MapOf(ls, base, o).fields;
            NoProtoFields(r) || FieldsWeight(r) < FieldsWeight(o.fields) + |ls|
    decreases |ls|, 0
  {
    hide KeyValueOf, UnquoteKey, ScalarOf, ChildOf, Put, Weight, FieldsWeight, NoProto, NoProtoFields, Deeper;
    if ls != [] && ls[0].indent >= base {
      match KeyValueOf(ls[0].content)
      case None => MapProto(ls[1..], base, o);
      case Some(kv) =>
        var k := UnquoteKey(kv.key);
        var n := if kv.value == "" then Deeper(ls[1..], base + 1) else 0;
        var p := if kv.value == "" then ChildOf(ls, n) else ScalarOf(kv.value);
        var o' := Put(o, k, p);
        if kv.value == "" {
          ChildOfWeight(ls, n);
          ChildProto(ls, n);
        } else {
          ScalarWeight(kv.value);
          ScalarNoProto(kv.value);
        }
        PutWeight(o, k, p);
        assert MapOf(ls, base, o) == MapOf(ls[1 + n..], base, o');
        if k != PROTO && NoProto(p.value) {
          PutNoProto(o, k, p);
          MapProto(ls[1 + n..], base, o');
        } else {
          MapOfWeight(ls[1 + n..], base, o');
        }
    }
  }

  lemma ScalarNoProto(t: string)
    ensures NoProto(ParseScalar(t)) && NoProto(ScalarOf(t).value)
  {
    hide Trim;
  }

  lemma {:induction false} SequenceProto(ls: seq<Line>, base: int)
    ensures var r := SequenceOf(ls, base);
            NoProto(Arr(r)) || ItemsWeight(r) < |ls|
    decreases |ls|, 2
  {
    hide ItemOf, ItemWeight;
    if ls != [] && ls[0].indent >= base && StartsWithDash(ls[0].content) {
      var n := Deeper(ls[1..], base + 1);
      ItemOfWeight(ls, n, base);
      ItemProto(ls, n, base);
      SequenceOfWeight(ls[1 + n..], base);
      SequenceProto(ls[1 + n..], base);
    }
  }

  lemma {:induction false} ItemProto(ls: seq<Line>, n: nat, base: int)
    requires n < |ls| && ls[0].content != ""
    ensures NoProto(ItemOf(ls, n, base)) || ItemWeight(ItemOf(ls, n, base)) < 1 + n
    decreases 1 + n, 1
  {
    hide Trim, KeyValueOf, ChildOf, MapOf, ParseScalar;
    var rest := Trim(ls[0].content[1..]);
    if rest == "" {
      ChildProto(ls, n);
    } else if KeyValueOf(rest).Some? {
      MapProto([Line(0, rest)] + Shift(ls[1..1 + n], base + 2), 0, EMPTY);
    } else {
      ScalarNoProto(rest);
    }
  }

  lemma ChildBackWeight(child: Json, n: nat)
    requires !NonEmptySequence(child)
    ensures Weight(ChildBack(child, n)) <= Weight(child)
  {
    hide Block, BlockOf, Weight;
    BlockWeight(child, n + 1);
    if Block(child, n + 1) != [] { BlockOfWeight(Block(child, n + 1), 2 * (n + 1)); }
    NullWeight();
  }

  lemma NullWeight()
    ensures Weight(Null) == 0
  {}

  /** The position of the first field that holds a non-empty sequence. */
  function FirstBad(fs: seq<Field>): (i: nat)
    ensures i <= |fs| && (i < |fs| ==> NonEmptySequence(fs[i].value))
    ensures forall j :: 0 <= j < i ==> !NonEmptySequence(fs[j].value)
  {
    if fs == [] || NonEmptySequence(fs[0].value) then 0 else 1 + FirstBad(fs[1..])
  }

  lemma SequenceReadsNull(key: string, v: Json, n: nat, rest: seq<Line>, o: Draft)
    requires OneLine(key) && key != PROTO && Printable(v) && NonEmptySequence(v)
    ensures MapOf(Keyed("", 2 * n, key, v, n) + rest, 2 * n, o)
            == MapOf(Items(v.items, n) + rest, 2 * n, With(o, key, Null))
  {
    hide MapOf, With, BlockOf, FormatText, Items, GoodLines;
    PrintableParts(v);
    ItemsAreGood(v.items, n);
    NestedLines(2 * n, key, [], Items(v.items, n) + rest, 2 * n, o);
    var first := [Line(2 * n, FormatText(key) + ":")];
    Brackets(FormatText(key));
    assert Keyed("", 2 * n, key, v, n) == first + Items(v.items, n);
    assert (first + Items(v.items, n)) + rest == first + [] + (Items(v.items, n) + rest);
  }

  lemma LastLookup(obj: seq<Field>, key: string, x: Json)
    requires !HasKey(obj, key)
    ensures HasKey(obj + [Field(key, x)], key)
    ensures Lookup(obj + [Field(key, x)], key) == Some(x)
  {
    var r := obj + [Field(key, x)];
    assert r[|obj|].key == key;
    assert IndexOfKey(r, key) == |obj|;
  }

  /** A field holding a non-empty sequence is read as null; whatever the stray
      item lines then do, the object does not come back. */
  lemma {:induction false} BadFieldLost(fs: seq<Field>, bad: nat, n: nat, o: Draft, all: seq<Field>)
    requires PrintableFields(fs) && Apart(o.fields, fs)
    requires bad < |fs| && NonEmptySequence(fs[bad].value)
    requires forall j :: 0 <= j < bad ==> !NonEmptySequence(fs[j].value)
    requires Lookup(all, fs[bad].key) == Some(fs[bad].value)
    requires FieldsWeight(all) >= FieldsWeight(o.fields) + |Fields(fs, n)|
    ensures MapOf(Fields(fs, n), 2 * n, o).fields != all
    decreases fs
  {
    hide Printable, CleanFields, ChildBack, Keyed, Shaped, SetField, HasKey, MapOf, FieldsWeight, Weight, Lookup;
    var obj := o.fields;
    PrintableTail(fs);
    var f := fs[0];
    var rest := Fields(fs[1..], n);
    KeyedWeight("", 2 * n, f.key, f.value, n);
    if bad == 0 {
      var ls := Items(f.value.items, n);
      var o' := With(o, f.key, Null);
      SequenceReadsNull(f.key, f.value, n, rest, o);
      assert o'.fields == obj + [Field(f.key, Null)];
      WeightOfAppend(obj, Field(f.key, Null));
      NullWeight();
      LastLookup(obj, f.key, Null);
      ItemsLines(f.value.items, n);
      SequenceWeight(f.value);
      KeptOrLighter(ls + rest, 2 * n, o', f.key);
    } else {
      FieldsEnd(fs[1..], n);
      var x := ChildBack(f.value, n);
      KeyedBack(f.key, f.value, n, rest, o);
      assert With(o, f.key, x).fields == obj + [Field(f.key, x)];
      ApartTail(obj, fs, x);
      WeightOfAppend(obj, Field(f.key, x));
      ChildBackWeight(f.value, n);
      BadFieldLost(fs[1..], bad - 1, n, With(o, f.key, x), all);
    }
  }

  lemma BadMapLost(v: Json, bad: nat, n: nat)
    requires Printable(v) && v.Obj? && bad == FirstBad(v.fields) && bad < |v.fields|
    ensures MapOf(Fields(v.fields, n), 2 * n, EMPTY).fields != v.fields && !Shaped(v)
  {
    hide MapOf, Fields, Printable, Lookup, Weight;
    PrintableParts(v);
    LookupAll(v.fields);
    FieldsLines(v.fields, n);
    assert Apart(EMPTY.fields, v.fields) && FieldsWeight(EMPTY.fields) == 0;
    BadFieldLost(v.fields, bad, n, EMPTY, v.fields);
  }

  lemma SequenceWeight(v: Json)
    requires v.Arr?
    ensures Weight(v) == ItemsWeight(v.items)
  {}
}
