/** The YAML line parser. */
module YamlParser {
  // The line parser: `tokenize`, the quote-aware searches, and the mutually
  // recursive block, map and sequence parsers. The functions say what is parsed;
  // the methods run the source's index loops and are proved to compute them.

  import opened Text
  import opened Json
  import opened YamlScalar
  import opened YamlPrinter
  import opened Options

  datatype KeyValue = KeyValue(key: string, value: string)

  // ------------------------------------------------------------ searching

  /** Where a comment starts, reading `line` from `i` in quote state `q`. */
  function CommentFrom(line: string, i: nat, q: Quote): (r: int)
    requires i <= |line|
    ensures r == -1 || i <= r < |line|
    decreases |line| - i
  {
    if i == |line| then -1
    else if q == Outside && line[i] == '#' && (i == 0 || line[i - 1] == ' ') then i
    else CommentFrom(line, i + 1, Step(q, line[i]))
  }

  /** A `#` outside quotes, at the start of the line or behind a blank. */
  predicate CommentAt(line: string, i: int) {
    && 0 <= i < |line| && line[i] == '#'
    && Scan(line[..i], Outside) == Outside && (i == 0 || line[i - 1] == ' ')
  }

  /** The first of them, or -1 if there is none. */
  predicate FirstComment(line: string, r: int) {
    && (r == -1 || CommentAt(line, r))
    && forall j :: 0 <= j < (if r == -1 then |line| else r) ==> !CommentAt(line, j)
  }

  lemma {:induction false} ScanSnoc(s: string, c: char, q: Quote)
    ensures Scan(s + [c], q) == Step(Scan(s, q), c)
  {
    if s == "" {
      assert ([c])[1..] == "";
    } else {
      assert (s + [c])[1..] == s[1..] + [c];
      ScanSnoc(s[1..], c, Step(q, s[0]));
    }
  }

  lemma {:induction false} CommentFromIsFirst(line: string, i: nat, q: Quote)
    requires i <= |line| && q == Scan(line[..i], Outside)
    ensures var r := CommentFrom(line, i, q);
      && (r >= 0 ==> CommentAt(line, r))
      && forall j :: i <= j < (if r < 0 then |line| else r) ==> !CommentAt(line, j)
    decreases |line| - i
  {
    hide Scan;
    if i < |line| {
      assert line[..i + 1] == line[..i] + [line[i]];
      ScanSnoc(line[..i], line[i], Outside);
      CommentFromIsFirst(line, i + 1, Step(q, line[i]));
    }
  }

  /** The loop finds the first place where a comment may start, or that there is none. */
  lemma CommentIsFirst(line: string)
    ensures FirstComment(line, CommentFrom(line, 0, Outside))
  {
    assert line[..0] == "";
    CommentFromIsFirst(line, 0, Outside);
  }

  method FindComment(line: string) returns (r: int)
    ensures r == CommentFrom(line, 0, Outside) && FirstComment(line, r)
  {
    hide CommentAt;
    CommentIsFirst(line);
    var inSingle, inDouble := false, false;
    ghost var q := Outside;
    for i := 0 to |line|
      invariant !(inSingle && inDouble)
      invariant inSingle <==> q == Single
      invariant inDouble <==> q == Double
      invariant CommentFrom(line, i, q) == CommentFrom(line, 0, Outside)
    {
      var c := line[i];
      if c == '\'' && !inDouble {
        inSingle := !inSingle;
      } else if c == '"' && !inSingle {
        inDouble := !inDouble;
      } else if c == '#' && !inSingle && !inDouble && (i == 0 || line[i - 1] == ' ') {
        return i;
      }
      q := Step(q, c);
    }
    return -1;
  }

  /** The colon that ends the key, or -1. */
  function ColonFrom(content: string, i: nat, q: Quote): (r: int)
    requires i <= |content|
    ensures r == -1 || i <= r < |content|
    decreases |content| - i
  {
    if i == |content| then -1
    else if q == Outside && content[i] == ':' && (i + 1 == |content| || content[i + 1] == ' ') then i
    else ColonFrom(content, i + 1, Step(q, content[i]))
  }

  function KeyValueOf(content: string): Option<KeyValue> {
    var i := ColonFrom(content, 0, Outside);
    if i == -1 then None else Some(KeyValue(Trim(content[..i]), Trim(content[i + 1..])))
  }

  /** A `:` outside quotes, at the end of the text or before a blank. */
  predicate ColonAt(content: string, i: int) {
    && 0 <= i < |content| && content[i] == ':'
    && Scan(content[..i], Outside) == Outside && (i + 1 == |content| || content[i + 1] == ' ')
  }

  /** Around the first of them stand a key and its value; without any there is none. */
  ghost predicate SplitAtFirst(content: string, r: Option<KeyValue>) {
    match r
    case None => forall j :: !ColonAt(content, j)
    case Some(kv) =>
      exists i: nat :: i < |content| && IsFirstColon(content, i)
        && kv == KeyValue(Trim(content[..i]), Trim(content[i + 1..]))
  }

  predicate IsFirstColon(content: string, i: nat) {
    ColonAt(content, i) && forall j :: 0 <= j < i ==> !ColonAt(content, j)
  }

  lemma {:induction false} ColonFromIsFirst(content: string, i: nat, q: Quote)
    requires i <= |content| && q == Scan(content[..i], Outside)
    ensures var r := ColonFrom(content, i, q);
      && (r >= 0 ==> ColonAt(content, r))
      && forall j :: i <= j < (if r < 0 then |content| else r) ==> !ColonAt(content, j)
    decreases |content| - i
  {
    hide Scan;
    if i < |content| {
      assert content[..i + 1] == content[..i] + [content[i]];
      ScanSnoc(content[..i], content[i], Outside);
      ColonFromIsFirst(content, i + 1, Step(q, content[i]));
    }
  }

  lemma SplitIsAtFirst(content: string)
    ensures SplitAtFirst(content, KeyValueOf(content))
  {
    hide Scan, Trim;
    assert content[..0] == "";
    assert Scan("", Outside) == Outside by { ScanNothing(); }
    ColonFromIsFirst(content, 0, Outside);
    var i := ColonFrom(content, 0, Outside);
    if i >= 0 { assert IsFirstColon(content, i); }
  }

  lemma ScanNothing()
    ensures Scan("", Outside) == Outside
  {}

  method SplitKeyValue(content: string) returns (r: Option<KeyValue>)
    ensures r == KeyValueOf(content) && SplitAtFirst(content, r)
  {
    hide SplitAtFirst, Trim;
    SplitIsAtFirst(content);
    var inSingle, inDouble := false, false;
    ghost var q := Outside;
    for i := 0 to |content|
      invariant !(inSingle && inDouble)
      invariant inSingle <==> q == Single
      invariant inDouble <==> q == Double
      invariant ColonFrom(content, i, q) == ColonFrom(content, 0, Outside)
    {
      var c := content[i];
      if c == '\'' && !inDouble {
        inSingle := !inSingle;
      } else if c == '"' && !inSingle {
        inDouble := !inDouble;
      } else if c == ':' && !inSingle && !inDouble {
        if i + 1 == |content| || content[i + 1] == ' ' {
          return Some(KeyValue(Trim(content[..i]), Trim(content[i + 1..])));
        }
      }
      q := Step(q, c);
    }
    return None;
  }

  // ----------------------------------------------------------- tokenizing

  function Uncommented(line: string): string {
    var h := CommentFrom(line, 0, Outside);
    if h == -1 then line else line[..h]
  }

  /** The tokens of one raw line: none when it is blank after its comment. */
  function LineTokens(raw: string): seq<Line> {
    var line := Uncommented(raw);
    if Trim(line) == "" then [] else [Line(|line| - |TrimStart(line)|, Trim(line))]
  }

  function TokensOf(raws: seq<string>): seq<Line> {
    if raws == [] then [] else LineTokens(raws[0]) + TokensOf(raws[1..])
  }

  lemma {:induction false} TokensConcat(a: seq<string>, b: seq<string>)
    ensures TokensOf(a + b) == TokensOf(a) + TokensOf(b)
  {
    if a == [] {
      assert a + b == b;
    } else {
      assert (a + b)[1..] == a[1..] + b;
      TokensConcat(a[1..], b);
    }
  }

  lemma TokensSnoc(raws: seq<string>, i: nat)
    requires i < |raws|
    ensures TokensOf(raws[..i + 1]) == TokensOf(raws[..i]) + LineTokens(raws[i])
  {
    assert raws[..i + 1] == raws[..i] + [raws[i]];
    TokensConcat(raws[..i], [raws[i]]);
    assert TokensOf([raws[i]]) == LineTokens(raws[i]) + [] == LineTokens(raws[i]);
  }

  method Tokenize(text: string) returns (out: seq<Line>)
    ensures out == TokensOf(SplitLines(text))
  {
    hide SplitLines, Trim, TrimStart, CommentFrom, FirstComment;
    var raws := SplitLines(text);
    out := [];
    assert raws[..0] == [];
    for i := 0 to |raws|
      invariant out == TokensOf(raws[..i])
    {
      var line := raws[i];
      var hashAt := FindComment(line);
      if hashAt != -1 {
        line := line[..hashAt];
      }
      TokensSnoc(raws, i);
      if Trim(line) != "" {
        out := out + [Line(|line| - |TrimStart(line)|, Trim(line))];
      }
    }
    assert raws[..|raws|] == raws;
  }

  // -------------------------------------------------------------- parsing

  predicate StartsWithDash(content: string) { content != "" && content[0] == '-' }

  /** How many leading lines are indented at least `minIndent`. */
  function Deeper(ls: seq<Line>, minIndent: int): (n: nat)
    ensures n <= |ls|
    ensures forall i :: 0 <= i < n ==> ls[i].indent >= minIndent
    ensures n < |ls| ==> ls[n].indent < minIndent
  {
    if ls == [] || ls[0].indent < minIndent then 0 else 1 + Deeper(ls[1..], minIndent)
  }

  lemma {:induction false} DeeperIs(ls: seq<Line>, minIndent: int, n: nat)
    requires n <= |ls| && forall i :: 0 <= i < n ==> ls[i].indent >= minIndent
    requires n < |ls| ==> ls[n].indent < minIndent
    ensures Deeper(ls, minIndent) == n
  {
    if n > 0 { DeeperIs(ls[1..], minIndent, n - 1); }
  }

  /** The lines of an inline `- key: value` item, moved so that its keys are at
      column 0. */
  function Shift(ls: seq<Line>, offset: int): (r: seq<Line>)
    ensures |r| == |ls|
    ensures forall i :: 0 <= i < |ls| ==> r[i] == Line(ls[i].indent - offset, ls[i].content)
  {
    seq(|ls|, i requires 0 <= i < |ls| => Line(ls[i].indent - offset, ls[i].content))
  }

  /** An object while `obj[key] = value` runs on it: its own properties, and
      whether it inherits the `__proto__` accessor, as `{}` does. */
  datatype Draft = Draft(fields: seq<Field>, accessor: bool)

  const EMPTY := Draft([], true)

  /** A parsed value. An object or array with `accessor` hands the `__proto__`
      accessor on to the objects whose prototype it becomes. */
  datatype Parsed = Parsed(value: Json, accessor: bool)

  function With(o: Draft, key: string, x: Json): Draft {
    o.(fields := SetField(o.fields, key, x))
  }

  /** The assignment `obj[key] = value`. Through the accessor it sets the prototype:
      `null` takes the accessor away, another object passes its own on, and
      anything else is ignored. */
  function Put(o: Draft, key: string, p: Parsed): Draft {
    if key != PROTO || !o.accessor then With(o, key, p.value)
    else if p.value.Null? then o.(accessor := false)
    else if p.value.Arr? || p.value.Obj? then o.(accessor := p.accessor)
    else o
  }

  function ScalarOf(t: string): Parsed { Parsed(ParseScalar(t), true) }

  function BlockOf(ls: seq<Line>, base: int): Parsed
    requires ls != []
    decreases |ls|, 3
  {
    if StartsWithDash(ls[0].content) then Parsed(Arr(SequenceOf(ls, base)), true)
    else MapDone(MapOf(ls, base, EMPTY))
  }

  function MapDone(o: Draft): Parsed { Parsed(Obj(o.fields), o.accessor) }

  /** What the map loop makes of the lines still ahead, given the object so far. */
  function MapOf(ls: seq<Line>, base: int, o: Draft): Draft
    decreases |ls|, 0
  {
    if ls == [] || ls[0].indent < base then o
    else
      match KeyValueOf(ls[0].content)
      case None => MapOf(ls[1..], base, o)
      case Some(kv) =>
        if kv.value == "" then
          var n := Deeper(ls[1..], base + 1);
          MapOf(ls[1 + n..], base, Put(o, UnquoteKey(kv.key), ChildOf(ls, n)))
        else
          MapOf(ls[1..], base, Put(o, UnquoteKey(kv.key), ScalarOf(kv.value)))
  }

  /** The block made of the `n` lines below the first one, or null. */
  function ChildOf(ls: seq<Line>, n: nat): Parsed
    requires n < |ls|
    decreases n, 4
  {
    if n == 0 then Parsed(Null, true) else BlockOf(ls[1..1 + n], ls[1].indent)
  }

  function SequenceOf(ls: seq<Line>, base: int): seq<Json>
    decreases |ls|, 2
  {
    if ls == [] || ls[0].indent < base || !StartsWithDash(ls[0].content) then []
    else
      var n := Deeper(ls[1..], base + 1);
      [ItemOf(ls, n, base)] + SequenceOf(ls[1 + n..], base)
  }

  function ItemOf(ls: seq<Line>, n: nat, base: int): Json
    requires n < |ls| && ls[0].content != ""
    decreases 1 + n, 1
  {
    var rest := Trim(ls[0].content[1..]);
    if rest == "" then ChildOf(ls, n).value
    else if KeyValueOf(rest).Some? then
      Obj(MapOf([Line(0, rest)] + Shift(ls[1..1 + n], base + 2), 0, EMPTY).fields)
    else ParseScalar(rest)
  }

  function FromTokens(ls: seq<Line>): Json {
    if ls == [] then Obj([]) else BlockOf(ls, ls[0].indent).value
  }

  function FromYaml(text: string): Json { FromTokens(TokensOf(SplitLines(text))) }

  // -------------------------------------------------- the recursive methods

  lemma SliceOfSlice<T>(s: seq<T>, i: nat, end: nat, a: nat, b: nat)
    requires i <= end <= |s| && a <= b <= end - i
    ensures s[i..end][a..b] == s[i + a..i + b]
  {
    assert forall k :: 0 <= k < b - a ==> s[i..end][a..b][k] == s[i..end][a + k] == s[i + a + k];
  }

  lemma DropOfSlice<T>(s: seq<T>, i: nat, end: nat, a: nat)
    requires i <= end <= |s| && a <= end - i
    ensures s[i..end][a..] == s[i + a..end]
  {}

  lemma Regroup<T>(a: seq<T>, x: T, b: seq<T>)
    ensures (a + [x]) + b == a + ([x] + b)
  {}

  method ChildRange(lines: seq<Line>, start: nat, end: nat, minIndent: int) returns (j: nat)
    requires start <= end <= |lines|
    ensures j == start + Deeper(lines[start..end], minIndent)
  {
    j := start;
    while j < end && lines[j].indent >= minIndent
      invariant start <= j <= end
      invariant forall i :: start <= i < j ==> lines[i].indent >= minIndent
    {
      j := j + 1;
    }
    var ls := lines[start..end];
    assert j < end ==> ls[j - start].indent < minIndent;
    assert forall k :: 0 <= k < j - start ==> ls[k] == lines[start + k];
    DeeperIs(ls, minIndent, j - start);
  }

  lemma MapStep(lines: seq<Line>, i: nat, end: nat, base: int, o: Draft)
    requires i < end <= |lines| && lines[i].indent >= base
    ensures var kv := KeyValueOf(lines[i].content);
      var childEnd := i + 1 + Deeper(lines[i + 1..end], base + 1);
      MapOf(lines[i..end], base, o) ==
      if kv.None? then MapOf(lines[i + 1..end], base, o)
      else if kv.value.value == "" then
        MapOf(lines[childEnd..end], base,
              Put(o, UnquoteKey(kv.value.key), ChildOf(lines[i..end], childEnd - i - 1)))
      else
        MapOf(lines[i + 1..end], base,
              Put(o, UnquoteKey(kv.value.key), ScalarOf(kv.value.value)))
  {
    hide KeyValueOf, UnquoteKey, ScalarOf, ChildOf, Put;
    DropOfSlice(lines, i, end, 1);
    DropOfSlice(lines, i, end, 1 + Deeper(lines[i + 1..end], base + 1));
  }

  lemma SequenceStep(lines: seq<Line>, i: nat, end: nat, base: int)
    requires i < end <= |lines| && lines[i].indent >= base && StartsWithDash(lines[i].content)
    ensures var itemEnd := i + 1 + Deeper(lines[i + 1..end], base + 1);
      SequenceOf(lines[i..end], base)
      == [ItemOf(lines[i..end], itemEnd - i - 1, base)] + SequenceOf(lines[itemEnd..end], base)
  {
    hide ItemOf, StartsWithDash;
    DropOfSlice(lines, i, end, 1);
    DropOfSlice(lines, i, end, 1 + Deeper(lines[i + 1..end], base + 1));
  }

  lemma MapStop(lines: seq<Line>, i: nat, end: nat, base: int, o: Draft)
    requires i <= end <= |lines|
    requires i < end ==> lines[i].indent < base
    ensures MapOf(lines[i..end], base, o) == o
  {
    hide KeyValueOf, UnquoteKey, ScalarOf, ChildOf, Put, Deeper;
  }

  lemma SequenceStop(lines: seq<Line>, i: nat, end: nat, base: int)
    requires i <= end <= |lines|
    requires i < end ==> lines[i].indent < base || !StartsWithDash(lines[i].content)
    ensures SequenceOf(lines[i..end], base) == []
  {}

  /** Terminates on every text: a nested block has fewer lines, and where a
      sequence hands a map as many lines as it has, the map ranks lower. */
  method ParseBlock(lines: seq<Line>, start: nat, end: nat, base: int) returns (p: Parsed)
    requires start < end <= |lines|
    ensures p == BlockOf(lines[start..end], base)
    decreases end - start, 3
  {
    if StartsWithDash(lines[start].content) {
      var arr := ParseSequence(lines, start, end, base);
      p := Parsed(Arr(arr), true);
    } else {
      var obj := ParseMap(lines, start, end, base);
      p := MapDone(obj);
    }
  }

  method ParseMap(lines: seq<Line>, start: nat, end: nat, base: int) returns (obj: Draft)
    requires start <= end <= |lines|
    ensures obj == MapOf(lines[start..end], base, EMPTY)
    decreases end - start, 0
  {
    hide KeyValueOf, UnquoteKey, ScalarOf, ChildOf, Put, Deeper, MapOf, SplitAtFirst;
    obj := EMPTY;
    var i := start;
    while i < end
      invariant start <= i <= end
      invariant MapOf(lines[i..end], base, obj) == MapOf(lines[start..end], base, EMPTY)
    {
      if lines[i].indent < base {
        MapStop(lines, i, end, base, obj);
        return;
      }
      MapStep(lines, i, end, base, obj);
      var split := SplitKeyValue(lines[i].content);
      match split {
        case None =>
          i := i + 1;
        case Some(kv) =>
          var key := UnquoteKey(kv.key);
          if kv.value == "" {
            var childEnd := ChildRange(lines, i + 1, end, base + 1);
            var child := ParseChild(lines, i, childEnd, end);
            obj := Put(obj, key, child);
            i := childEnd;
          } else {
            obj := Put(obj, key, ScalarOf(kv.value));
            i := i + 1;
          }
      }
    }
    MapStop(lines, i, end, base, obj);
  }

  /** The nested block below line `i`, which ends before line `childEnd`. */
  method ParseChild(lines: seq<Line>, i: nat, childEnd: nat, ghost end: nat) returns (p: Parsed)
    requires i < childEnd <= end <= |lines|
    ensures p == ChildOf(lines[i..end], childEnd - i - 1)
    decreases childEnd - i - 1, 4
  {
    if i + 1 < childEnd {
      p := ParseBlock(lines, i + 1, childEnd, lines[i + 1].indent);
      SliceOfSlice(lines, i, end, 1, childEnd - i);
    } else {
      p := Parsed(Null, true);
    }
  }

  method ParseSequence(lines: seq<Line>, start: nat, end: nat, base: int) returns (arr: seq<Json>)
    requires start <= end <= |lines|
    ensures arr == SequenceOf(lines[start..end], base)
    decreases end - start, 2
  {
    hide ItemOf, Deeper, SequenceOf;
    arr := [];
    var i := start;
    while i < end
      invariant start <= i <= end
      invariant SequenceOf(lines[start..end], base) == arr + SequenceOf(lines[i..end], base)
    {
      if lines[i].indent < base || !StartsWithDash(lines[i].content) {
        SequenceStop(lines, i, end, base);
        return;
      }
      SequenceStep(lines, i, end, base);
      var itemEnd := ChildRange(lines, i + 1, end, base + 1);
      var item := ParseItem(lines, i, itemEnd, end, base);
      Regroup(arr, item, SequenceOf(lines[itemEnd..end], base));
      arr := arr + [item];
      i := itemEnd;
    }
    SequenceStop(lines, i, end, base);
  }

  method ParseItem(lines: seq<Line>, i: nat, itemEnd: nat, ghost end: nat, base: int)
    returns (v: Json)
    requires i < itemEnd <= end <= |lines| && lines[i].content != ""
    ensures v == ItemOf(lines[i..end], itemEnd - i - 1, base)
    decreases itemEnd - i, 1
  {
    hide Trim, KeyValueOf, MapOf, ChildOf, ParseScalar, Shift, SplitAtFirst;
    var rest := Trim(lines[i].content[1..]);
    if rest == "" {
      var child := ParseChild(lines, i, itemEnd, end);
      v := child.value;
    } else {
      var kv := SplitKeyValue(rest);
      if kv.Some? {
        var synthetic := Synthesize(lines, i, itemEnd, base, rest);
        SliceOfSlice(lines, i, end, 1, itemEnd - i);
        var obj := ParseMap(synthetic, 0, |synthetic|, 0);
        assert synthetic[0..|synthetic|] == synthetic;
        v := Obj(obj.fields);
      } else {
        v := ParseScalar(rest);
      }
    }
  }

  lemma ShiftSnoc(head: seq<Line>, lines: seq<Line>, i: nat, k: nat, offset: int)
    requires i <= k < |lines|
    ensures head + Shift(lines[i..k + 1], offset)
            == (head + Shift(lines[i..k], offset))
               + [Line(lines[k].indent - offset, lines[k].content)]
  {}

  method Synthesize(lines: seq<Line>, i: nat, itemEnd: nat, base: int, rest: string)
    returns (synthetic: seq<Line>)
    requires i < itemEnd <= |lines|
    ensures synthetic == [Line(0, rest)] + Shift(lines[i + 1..itemEnd], base + 2)
  {
    synthetic := [Line(0, rest)];
    for k := i + 1 to itemEnd
      invariant synthetic == [Line(0, rest)] + Shift(lines[i + 1..k], base + 2)
    {
      ShiftSnoc([Line(0, rest)], lines, i + 1, k, base + 2);
      synthetic := synthetic + [Line(lines[k].indent - (base + 2), lines[k].content)];
    }
  }

  method ReadYaml(text: string) returns (v: Json)
    ensures v == FromYaml(text)
  {
    var lines := Tokenize(text);
    if |lines| == 0 { return Obj([]); }
    assert lines[0..|lines|] == lines;
    var p := ParseBlock(lines, 0, |lines|, lines[0].indent);
    v := p.value;
  }
}
