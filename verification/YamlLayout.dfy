/** The layout of printed YAML: every printed line survives tokenizing, blocks
    sit at their column, and their line count is a weight of the value. */
module YamlLayout {
  import opened Text
  import opened Json
  import opened YamlScalar
  import opened YamlPrinter
  import opened YamlParser
  import opened Options

  /** What the text format can carry inside: strings and keys of one line, no
      `undefined`, and no number that `String` writes with an exponent or a word. */
  predicate Clean(v: Json) {
    match v
    case Undefined => false
    case Real(literal) => IsDecimalText(literal)
    case Str(s) => OneLine(s)
    case Arr(items) => forall i :: 0 <= i < |items| ==> Clean(items[i])
    case Obj(fields) => CleanFields(fields)
    case _ => true
  }

  predicate CleanFields(fields: seq<Field>) {
    forall i :: 0 <= i < |fields| ==>
      OneLine(fields[i].key) && Clean(fields[i].value)
  }

  // ------------------------------------------------------- line contents

  ghost predicate GoodContent(c: string) {
    Trimmed(c) && OneLine(c) && Free(c, Outside, '#')
  }

  lemma {:induction false} FreeMeansNoComment(line: string, i: nat, q: Quote)
    requires i <= |line| && Free(line[i..], q, '#')
    ensures CommentFrom(line, i, q) == -1
    decreases |line| - i
  {
    if i < |line| {
      assert line[i..][0] == line[i] && line[i..][1..] == line[i + 1..];
      FreeMeansNoComment(line, i + 1, Step(q, line[i]));
    }
  }

  lemma {:induction false} FreeMeansNoColon(content: string, i: nat, q: Quote)
    requires i <= |content| && Free(content[i..], q, ':')
    ensures ColonFrom(content, i, q) == -1
    decreases |content| - i
  {
    if i < |content| {
      assert content[i..][0] == content[i] && content[i..][1..] == content[i + 1..];
      FreeMeansNoColon(content, i + 1, Step(q, content[i]));
    }
  }

  lemma {:induction false} ColonAfter(content: string, i: nat, j: nat, q: Quote)
    requires i <= j < |content| && content[j] == ':'
    requires j + 1 == |content| || content[j + 1] == ' '
    requires Free(content[i..j], q, ':') && Scan(content[i..j], q) == Outside
    ensures ColonFrom(content, i, q) == j
    decreases j - i
  {
    if i < j {
      assert content[i..j][0] == content[i] && content[i..j][1..] == content[i + 1..j];
      ColonAfter(content, i + 1, j, Step(q, content[i]));
    }
  }

  lemma CalmHasNoKey(t: string)
    requires Calm(t)
    ensures KeyValueOf(t) == None
  {
    hide Calm;
    assert t[0..] == t;
    assert Free(t, Outside, ':') by { CalmFacts(t); }
    FreeMeansNoColon(t, 0, Outside);
  }

  lemma CalmFacts(t: string)
    requires Calm(t)
    ensures Trimmed(t) && OneLine(t) && Scan(t, Outside) == Outside
    ensures Free(t, Outside, '#') && Free(t, Outside, ':')
  {}

  lemma KeyAloneSplits(k: string)
    requires Calm(k)
    ensures KeyValueOf(k + ":") == Some(KeyValue(k, ""))
  {
    hide Free, Scan, Trim;
    var content := k + ":";
    CalmFacts(k);
    assert content[0..|k|] == k && content[..|k|] == k && content[|k| + 1..] == "";
    ColonAfter(content, 0, |k|, Outside);
    TrimOfTrimmed(k);
    TrimOfNothing();
  }

  lemma TrimOfNothing()
    ensures Trim("") == ""
  {}

  lemma KeyedTextSplits(k: string, t: string)
    requires Calm(k) && Calm(t)
    ensures KeyValueOf(k + ": " + t) == Some(KeyValue(k, t))
  {
    hide Free, Scan, Trim;
    var content := k + ": " + t;
    CalmFacts(k);
    CalmFacts(t);
    assert content[0..|k|] == k && content[..|k|] == k && content[|k| + 1..] == " " + t;
    ColonAfter(content, 0, |k|, Outside);
    TrimOfTrimmed(k);
    TrimOfPadded(1, t);
    assert Spaces(1) + t == " " + t;
  }

  lemma FreeConcat(a: string, b: string)
    requires Free(a, Outside, '#') && Scan(a, Outside) == Outside && Free(b, Outside, '#')
    ensures Free(a + b, Outside, '#')
  {
    ScanConcat(a, b, Outside, '#');
  }

  predicate IsHead(head: string) { head == "" || head == "- " }

  lemma HeadedKeyIsGood(head: string, k: string)
    requires IsHead(head) && Calm(k)
    ensures GoodContent(head + k + ":")
    ensures Free(head + k + ": ", Outside, '#') && Scan(head + k + ": ", Outside) == Outside
  {
    hide Free, Scan;
    CalmFacts(k);
    BareScan(head, '#');
    BareScan(":", '#');
    BareScan(": ", '#');
    ScanConcat(head, k, Outside, '#');
    ScanConcat(head + k, ":", Outside, '#');
    ScanConcat(head + k, ": ", Outside, '#');
  }

  lemma HeadedPairIsGood(head: string, k: string, t: string)
    requires IsHead(head) && Calm(k) && Calm(t)
    ensures GoodContent(head + k + ": " + t)
  {
    hide Free, Scan;
    CalmFacts(k);
    CalmFacts(t);
    HeadedKeyIsGood(head, k);
    FreeConcat(head + k + ": ", t);
    assert head + k + ": " + t == (head + k + ": ") + t;
  }

  lemma BracketsAreCalm(t: string)
    requires t == "[]" || t == "{}"
    ensures Calm(t)
  {
    BareScan(t, '#');
    BareScan(t, ':');
  }

  lemma DashedIsGood(t: string)
    requires Calm(t)
    ensures GoodContent("- " + t)
  {
    hide Free, Scan;
    CalmFacts(t);
    BareScan("- ", '#');
    FreeConcat("- ", t);
  }

  lemma DashedTrims(t: string)
    requires Trimmed(t)
    ensures Trim(("- " + t)[1..]) == t
  {
    hide Trim;
    assert ("- " + t)[1..] == Spaces(1) + t;
    TrimOfPadded(1, t);
  }

  lemma DashIsGood()
    ensures GoodContent("-")
  {
    BareScan("-", '#');
  }

  lemma PaddedHasNoComment(col: nat, content: string)
    requires Free(content, Outside, '#')
    ensures Uncommented(Spaces(col) + content) == Spaces(col) + content
  {
    hide Free, Scan, CommentFrom;
    var r := Spaces(col) + content;
    BareScan(Spaces(col), '#');
    FreeConcat(Spaces(col), content);
    assert r[0..] == r;
    FreeMeansNoComment(r, 0, Outside);
  }

  lemma GoodLineTokens(l: Line)
    requires l.indent >= 0 && GoodContent(l.content)
    ensures LineTokens(Render(l)) == [l]
  {
    hide Free, Trim, TrimStart, Uncommented;
    PaddedHasNoComment(l.indent, l.content);
    TrimOfPadded(l.indent, l.content);
  }

  lemma GoodLineIsWhole(l: Line)
    requires l.indent >= 0 && GoodContent(l.content)
    ensures WholeLine(Render(l))
  {
    hide Free;
    assert '\n' !in Spaces(l.indent);
  }

  ghost predicate GoodLines(ls: seq<Line>, min: nat) {
    forall i :: 0 <= i < |ls| ==> ls[i].indent >= min && GoodContent(ls[i].content)
  }

  lemma {:induction false} GoodLinesTokens(ls: seq<Line>)
    requires GoodLines(ls, 0)
    ensures TokensOf(RenderAll(ls)) == ls
    ensures forall r :: r in RenderAll(ls) ==> WholeLine(r)
  {
    hide GoodContent, LineTokens, Render, WholeLine;
    if ls != [] {
      GoodLineTokens(ls[0]);
      GoodLineIsWhole(ls[0]);
      GoodLinesTokens(ls[1..]);
      assert RenderAll(ls)[1..] == RenderAll(ls[1..]);
      assert ls == [ls[0]] + ls[1..];
    }
  }

  // -------------------------------------------------- lines of whole blocks

  lemma {:induction false} KeyedIsGood(head: string, col: nat, key: string, child: Json, n: nat)
    requires IsHead(head) && OneLine(key) && Clean(child)
    requires col <= 2 * n
    ensures GoodLines(Keyed(head, col, key, child, n), col)
    ensures var ls := Keyed(head, col, key, child, n);
            ls != [] && ls[0].indent == col && forall i :: 1 <= i < |ls| ==> ls[i].indent >= 2 * n
    decreases child, 2
  {
    hide Calm, GoodContent, Clean;
    hide FormatText, FormatScalar;
    if child.Arr? && child.items != [] {
      KeyLineIsGood(head, key, "");
      BlockIsGood(child, n);
    } else if child.Obj? && child.fields != [] {
      KeyLineIsGood(head, key, "");
      BlockIsGood(child, n + 1);
    } else {
      InlineTextIsCalm(child);
      KeyLineIsGood(head, key, InlineText(child));
      var k := FormatText(key);
      assert head + k + ": []" == head + k + ": " + "[]";
      assert head + k + ": {}" == head + k + ": " + "{}";
    }
  }

  /** The text after the colon of a value that fits on its key's line. */
  function InlineText(child: Json): string {
    if child.Arr? then "[]" else if child.Obj? then "{}" else FormatScalar(child)
  }

  lemma InlineTextIsCalm(child: Json)
    requires Clean(child)
    ensures Calm(InlineText(child))
  {
    if IsScalar(child) { ScalarIsCalm(child); } else { BracketsAreCalm(InlineText(child)); }
  }

  lemma KeyLineIsGood(head: string, key: string, t: string)
    requires IsHead(head) && OneLine(key)
    ensures GoodContent(head + FormatText(key) + ":")
    ensures Calm(t) ==> GoodContent(head + FormatText(key) + ": " + t)
  {
    hide Calm, GoodContent;
    KeyRoundTrip(key);
    HeadedKeyIsGood(head, FormatText(key));
    if Calm(t) { HeadedPairIsGood(head, FormatText(key), t); }
  }

  lemma ScalarIsCalm(v: Json)
    requires IsScalar(v) && Clean(v)
    ensures Calm(FormatScalar(v)) && ParseScalar(FormatScalar(v)) == v
  {
    hide Calm, FormatScalar, ParseScalar;
    ScalarRoundTrip(v);
  }

  lemma {:induction false} BlockIsGood(v: Json, n: nat)
    requires Clean(v)
    ensures GoodLines(Block(v, n), 2 * n)
    ensures (v.Arr? && v.items != []) || (v.Obj? && v.fields != []) ==>
      Block(v, n) != [] && Block(v, n)[0].indent == 2 * n
    decreases v, 1
  {
    hide GoodContent;
    if v.Arr? {
      ItemsAreGood(v.items, n);
    } else if v.Obj? {
      FieldsAreGood(v.fields, n);
    }
  }

  lemma {:induction false} FieldsAreGood(fs: seq<Field>, n: nat)
    requires CleanFields(fs)
    ensures GoodLines(Fields(fs, n), 2 * n)
    ensures fs != [] ==> Fields(fs, n) != [] && Fields(fs, n)[0].indent == 2 * n
    decreases fs, 0
  {
    hide GoodContent, Clean, Keyed;
    if fs != [] {
      KeyedIsGood("", 2 * n, fs[0].key, fs[0].value, n);
      FieldsAreGood(fs[1..], n);
    }
  }

  lemma {:induction false} ItemsAreGood(items: seq<Json>, n: nat)
    requires forall i :: 0 <= i < |items| ==> Clean(items[i])
    ensures GoodLines(Items(items, n), 2 * n)
    ensures items != [] ==> Items(items, n) != [] && Items(items, n)[0].indent == 2 * n
    decreases items, 0
  {
    hide GoodContent, Clean, Item;
    if items != [] {
      ItemIsGood(items[0], n);
      ItemsAreGood(items[1..], n);
    }
  }

  lemma {:induction false} ItemIsGood(item: Json, n: nat)
    requires Clean(item)
    ensures GoodLines(Item(item, n), 2 * n)
    ensures var ls := Item(item, n);
            ls != [] && ls[0].indent == 2 * n && forall i :: 1 <= i < |ls| ==> ls[i].indent >= 2 * n + 2
    decreases item, 3
  {
    hide GoodContent, Keyed, Calm, FormatScalar;
    if item.Obj? && item.fields != [] {
      KeyedIsGood("- ", 2 * n, item.fields[0].key, item.fields[0].value, n + 1);
      FieldsAreGood(item.fields[1..], n + 1);
    } else if item.Arr? {
      DashIsGood();
      BlockIsGood(item, n + 1);
    } else {
      InlineTextIsCalm(item);
      DashedIsGood(InlineText(item));
      assert "- {}" == "- " + "{}";
      assert Item(item, n) == [Line(2 * n, "- " + InlineText(item))];
    }
  }

  /** The tokens of the printed text are exactly the lines that were printed. */
  lemma PrintedTokens(v: Json)
    requires Clean(v)
    ensures TokensOf(SplitLines(ToYaml(v))) == Block(v, 0)
  {
    hide GoodContent, TokensOf, SplitLines, WholeLine;
    var ls := Block(v, 0);
    BlockIsGood(v, 0);
    GoodLinesTokens(ls);
    if ls == [] {
      BlankText();
    } else {
      SplitOfJoin(RenderAll(ls));
      TokensConcat(RenderAll(ls), [""]);
      BlankLine();
    }
  }

  lemma BlankLine()
    ensures TokensOf([""]) == []
  {}

  lemma BlankText()
    ensures RenderAll([]) == [] && TokensOf(SplitLines(JoinLines([]) + "\n")) == []
  {
    assert JoinLines([]) + "\n" == "" + "\n" + "";
    SplitFirst("", "");
    assert SplitLines("") == [""];
    TokensConcat([""], [""]);
    BlankLine();
  }

  // ------------------------------------------------------------- shifting

  lemma ShiftConcat(a: seq<Line>, b: seq<Line>, offset: int)
    ensures Shift(a + b, offset) == Shift(a, offset) + Shift(b, offset)
  {}

  lemma {:induction false} KeyedShift(head: string, col: nat, key: string, child: Json, n: nat, k: nat)
    ensures Shift(Keyed(head, col + 2 * k, key, child, n + k), 2 * k) == Keyed(head, col, key, child, n)
    decreases child, 2
  {
    hide FormatText, FormatScalar, Shift, Block;
    var text := head + FormatText(key);
    if child.Arr? && child.items != [] {
      BlockShift(child, n, k);
      ShiftHead(Line(col + 2 * k, text + ":"), Block(child, n + k), 2 * k);
    } else if child.Obj? && child.fields != [] {
      BlockShift(child, n + 1, k);
      ShiftHead(Line(col + 2 * k, text + ":"), Block(child, n + 1 + k), 2 * k);
    } else {
      ShiftHead(Keyed(head, col + 2 * k, key, child, n + k)[0], [], 2 * k);
    }
  }

  lemma ShiftHead(l: Line, rest: seq<Line>, offset: int)
    ensures Shift([l] + rest, offset) == [Line(l.indent - offset, l.content)] + Shift(rest, offset)
    ensures Shift([l], offset) == [Line(l.indent - offset, l.content)]
  {}

  lemma {:induction false} BlockShift(v: Json, n: nat, k: nat)
    ensures Shift(Block(v, n + k), 2 * k) == Block(v, n)
    decreases v, 1
  {
    if v.Arr? {
      ItemsShift(v.items, n, k);
    } else if v.Obj? {
      FieldsShift(v.fields, n, k);
    }
  }

  lemma {:induction false} FieldsShift(fs: seq<Field>, n: nat, k: nat)
    ensures Shift(Fields(fs, n + k), 2 * k) == Fields(fs, n)
    decreases fs, 0
  {
    hide Keyed, Shift;
    if fs != [] {
      KeyedShift("", 2 * n, fs[0].key, fs[0].value, n, k);
      FieldsShift(fs[1..], n, k);
      ShiftConcat(Keyed("", 2 * n + 2 * k, fs[0].key, fs[0].value, n + k), Fields(fs[1..], n + k), 2 * k);
      assert 2 * (n + k) == 2 * n + 2 * k;
    }
  }

  lemma {:induction false} ItemsShift(items: seq<Json>, n: nat, k: nat)
    ensures Shift(Items(items, n + k), 2 * k) == Items(items, n)
    decreases items, 0
  {
    hide Item, Shift;
    if items != [] {
      ItemShift(items[0], n, k);
      ItemsShift(items[1..], n, k);
      ShiftConcat(Item(items[0], n + k), Items(items[1..], n + k), 2 * k);
    }
  }

  lemma {:induction false} ItemShift(item: Json, n: nat, k: nat)
    ensures Shift(Item(item, n + k), 2 * k) == Item(item, n)
    decreases item, 3
  {
    hide Keyed, FormatScalar;
    assert 2 * (n + k) == 2 * n + 2 * k;
    if item.Obj? && item.fields != [] {
      var f := item.fields[0];
      KeyedShift("- ", 2 * n, f.key, f.value, n + 1, k);
      FieldsShift(item.fields[1..], n + 1, k);
      ShiftConcat(Keyed("- ", 2 * n + 2 * k, f.key, f.value, n + 1 + k),
                  Fields(item.fields[1..], n + 1 + k), 2 * k);
    } else if item.Arr? {
      BlockShift(item, n + 1, k);
    }
  }

  // --------------------------------------------------------------- weight

  /** The number of lines a value takes as a block. */
  function Weight(v: Json): nat
    decreases v, 1
  {
    if v.Arr? then ItemsWeight(v.items) else if v.Obj? then FieldsWeight(v.fields) else 0
  }

  function FieldsWeight(fs: seq<Field>): nat
    decreases fs, 0
  {
    if fs == [] then 0 else 1 + Weight(fs[0].value) + FieldsWeight(fs[1..])
  }

  function ItemsWeight(items: seq<Json>): nat
    decreases items, 0
  {
    if items == [] then 0 else ItemWeight(items[0]) + ItemsWeight(items[1..])
  }

  function ItemWeight(item: Json): nat
    decreases item, 2
  {
    if item.Obj? && item.fields != [] then Weight(item) else 1 + Weight(item)
  }

  lemma {:induction false} KeyedWeight(head: string, col: nat, key: string, child: Json, n: nat)
    ensures |Keyed(head, col, key, child, n)| == 1 + Weight(child)
    decreases child, 2
  {
    if child.Arr? && child.items != [] {
      BlockWeight(child, n);
    } else if child.Obj? && child.fields != [] {
      BlockWeight(child, n + 1);
    }
  }

  lemma {:induction false} BlockWeight(v: Json, n: nat)
    ensures |Block(v, n)| == Weight(v)
    decreases v, 1
  {
    if v.Arr? { ItemsLines(v.items, n); } else if v.Obj? { FieldsLines(v.fields, n); }
  }

  lemma {:induction false} FieldsLines(fs: seq<Field>, n: nat)
    ensures |Fields(fs, n)| == FieldsWeight(fs)
    decreases fs, 0
  {
    if fs != [] {
      KeyedWeight("", 2 * n, fs[0].key, fs[0].value, n);
      FieldsLines(fs[1..], n);
    }
  }

  lemma {:induction false} ItemsLines(items: seq<Json>, n: nat)
    ensures |Items(items, n)| == ItemsWeight(items)
    decreases items, 0
  {
    hide Item, ItemWeight;
    if items != [] {
      ItemLines(items[0], n);
      ItemsLines(items[1..], n);
    }
  }

  lemma {:induction false} ItemLines(item: Json, n: nat)
    ensures |Item(item, n)| == ItemWeight(item)
    decreases item, 3
  {
    if item.Obj? && item.fields != [] {
      KeyedWeight("- ", 2 * n, item.fields[0].key, item.fields[0].value, n + 1);
      FieldsLines(item.fields[1..], n + 1);
    } else {
      BlockWeight(item, n + 1);
    }
  }
}
