/** YAML there and back. */
module YamlLaws {
  import opened Text
  import opened Json
  import opened YamlScalar
  import opened YamlPrinter
  import opened YamlParser
  import opened YamlLayout
  import opened Options
  import opened YamlRoundTrip

  // ------------------------------------------------ what the parser yields

  lemma {:induction false} UndoubledOneLine(s: string)
    requires OneLine(s)
    ensures OneLine(UndoubleQuotes(s))
    decreases |s|
  {
    if s != "" {
      if |s| >= 2 && s[0] == '\'' && s[1] == '\'' {
        UndoubledOneLine(s[2..]);
      } else {
        UndoubledOneLine(s[1..]);
      }
    }
  }

  lemma {:induction false} UnescapedOneLine(s: string)
    requires OneLine(s)
    ensures OneLine(UnescapeQuotes(s))
    decreases |s|
  {
    if s != "" {
      if |s| >= 2 && s[0] == '\\' && s[1] == '"' {
        UnescapedOneLine(s[2..]);
      } else {
        UnescapedOneLine(s[1..]);
      }
    }
  }

  lemma TrimOneLine(s: string)
    requires OneLine(s)
    ensures OneLine(Trim(s))
  {
    var t := TrimStart(s);
    assert OneLine(t);
    assert forall c :: c in TrimEnd(t) ==> c in t;
  }

  lemma ReadScalarClean(s: string)
    requires OneLine(s)
    ensures Clean(ReadScalar(s)) && OneLine(KeyString(ReadScalar(s)))
  {
    hide UndoubleQuotes, UnescapeQuotes, IsDecimalText, IsIntegerText, ParseNat;
    if |s| >= 2 {
      UndoubledOneLine(s[1..|s| - 1]);
      UnescapedOneLine(s[1..|s| - 1]);
    }
  }

  lemma ScalarClean(raw: string)
    requires OneLine(raw)
    ensures Clean(ParseScalar(raw)) && Clean(ScalarOf(raw).value) && OneLine(UnquoteKey(raw))
  {
    hide Trim, ReadScalar, KeyString;
    TrimOneLine(raw);
    ReadScalarClean(Trim(raw));
  }

  lemma KeyValueOneLine(content: string)
    requires OneLine(content) && KeyValueOf(content).Some?
    ensures OneLine(KeyValueOf(content).value.key) && OneLine(KeyValueOf(content).value.value)
  {
    hide Trim;
    var i := ColonFrom(content, 0, Outside);
    TrimOneLine(content[..i]);
    TrimOneLine(content[i + 1..]);
  }

  ghost predicate OneLiners(ls: seq<Line>) {
    forall i :: 0 <= i < |ls| ==> OneLine(ls[i].content)
  }

  lemma PutClean(o: Draft, key: string, p: Parsed)
    requires CleanFields(o.fields) && OneLine(key) && Clean(p.value)
    ensures CleanFields(Put(o, key, p).fields)
  {
    hide Clean;
  }

  /** Whatever the lines, the value parsed from them is clean. */
  lemma {:induction false} BlockOfClean(ls: seq<Line>, base: int)
    requires ls != [] && OneLiners(ls)
    ensures Clean(BlockOf(ls, base).value)
    decreases |ls|, 3
  {
    hide MapOf, SequenceOf;
    if StartsWithDash(ls[0].content) {
      SequenceOfClean(ls, base);
    } else {
      MapOfClean(ls, base, EMPTY);
    }
  }

  lemma {:induction false} ChildOfClean(ls: seq<Line>, n: nat)
    requires n < |ls| && OneLiners(ls)
    ensures Clean(ChildOf(ls, n).value)
    decreases n, 4
  {
    hide BlockOf;
    if n > 0 { BlockOfClean(ls[1..1 + n], ls[1].indent); }
  }

  lemma {:induction false} MapOfClean(ls: seq<Line>, base: int, o: Draft)
    requires OneLiners(ls) && CleanFields(o.fields)
    ensures CleanFields(MapOf(ls, base, o).fields)
    decreases |ls|, 0
  {
    hide KeyValueOf, UnquoteKey, ScalarOf, ChildOf, Put, Clean, CleanFields, OneLine;
    if ls != [] && ls[0].indent >= base {
      match KeyValueOf(ls[0].content)
      case None => MapOfClean(ls[1..], base, o);
      case Some(kv) =>
        var key := UnquoteKey(kv.key);
        KeyValueOneLine(ls[0].content);
        ScalarClean(kv.key);
        if kv.value == "" {
          var n := Deeper(ls[1..], base + 1);
          ChildOfClean(ls, n);
          PutClean(o, key, ChildOf(ls, n));
          MapOfClean(ls[1 + n..], base, Put(o, key, ChildOf(ls, n)));
        } else {
          ScalarClean(kv.value);
          PutClean(o, key, ScalarOf(kv.value));
          MapOfClean(ls[1..], base, Put(o, key, ScalarOf(kv.value)));
        }
    }
  }

  lemma {:induction false} SequenceOfClean(ls: seq<Line>, base: int)
    requires OneLiners(ls)
    ensures forall i :: 0 <= i < |SequenceOf(ls, base)| ==> Clean(SequenceOf(ls, base)[i])
    decreases |ls|, 2
  {
    hide ItemOf, Clean, OneLine;
    if ls != [] && ls[0].indent >= base && StartsWithDash(ls[0].content) {
      var n := Deeper(ls[1..], base + 1);
      ItemOfClean(ls, n, base);
      SequenceOfClean(ls[1 + n..], base);
    }
  }

  lemma {:induction false} ItemOfClean(ls: seq<Line>, n: nat, base: int)
    requires n < |ls| && ls[0].content != "" && OneLiners(ls)
    ensures Clean(ItemOf(ls, n, base))
    decreases 1 + n, 1
  {
    hide Trim, KeyValueOf, ChildOf, MapOf, ParseScalar;
    var rest := Trim(ls[0].content[1..]);
    TrimOneLine(ls[0].content[1..]);
    if rest == "" {
      ChildOfClean(ls, n);
    } else if KeyValueOf(rest).Some? {
      MapOfClean([Line(0, rest)] + Shift(ls[1..1 + n], base + 2), 0, EMPTY);
    } else {
      ScalarClean(rest);
    }
  }

  lemma {:induction false} TokensOneLine(raws: seq<string>)
    requires forall r :: r in raws ==> OneLine(r)
    ensures OneLiners(TokensOf(raws))
  {
    hide Trim, TrimStart, CommentFrom;
    if raws != [] {
      var line := Uncommented(raws[0]);
      assert OneLine(raws[0]);
      assert OneLine(line);
      TrimOneLine(line);
      TokensOneLine(raws[1..]);
    }
  }

  /** For every text: what it parses to holds no line feed, no `undefined` and no
      number with an exponent; and where it holds an own property `__proto__`, it
      has fewer lines' worth of content than the text has. */
  lemma ParsedIsClean(text: string)
    ensures Clean(FromYaml(text))
    ensures NoProto(FromYaml(text)) || Weight(FromYaml(text)) < |TokensOf(SplitLines(text))|
  {
    hide SplitLines, TokensOf, BlockOf, Weight;
    var ls := TokensOf(SplitLines(text));
    TokensOneLine(SplitLines(text));
    if ls != [] {
      BlockOfClean(ls, ls[0].indent);
      BlockProto(ls, ls[0].indent);
    }
  }

  // ------------------------------------------------------------ main results

  lemma EmptyDocument(v: Json)
    requires !NonEmptyContainer(v)
    ensures Block(v, 0) == []
  {}

  /** Printing and parsing gives a value back exactly when it survives: it is a
      map or a non-empty sequence, its texts and numbers are clean, no key is
      `__proto__`, and it never nests a non-empty sequence directly under a key or
      an empty one in a sequence. */
  lemma RoundTripExactly(v: Json)
    requires WellFormed(v)
    ensures FromYaml(ToYaml(v)) == v <==> Survives(v)
  {
    hide BlockOf, Block, ToYaml, TokensOf, SplitLines, Clean, NoProto, Shaped, WellFormed, GoodLines, Weight;
    ParsedIsClean(ToYaml(v));
    if Clean(v) {
      PrintedTokens(v);
      BlockWeight(v, 0);
      if !NoProto(v) {
        return;
      }
      if NonEmptyContainer(v) {
        BlockBack(v, 0);
        BlockIsGood(v, 0);
      } else {
        EmptyDocument(v);
        SmallIsShaped(v);
      }
    }
  }

  /** A sequence of one scalar under a key is printed as valid YAML (section
      8.2.3 of YAML 1.2) and read back as null: its item line has no key. */
  lemma SequenceUnderKeyIsLost(key: string, n: int)
    requires OneLine(key) && key != PROTO
    ensures FromYaml(ToYaml(Obj([Field(key, Arr([Int(n)]))]))) == Obj([Field(key, Null)])
  {
    hide MapOf, Fields, Items, With, HasKey, TokensOf, SplitLines, ToYaml, BlockOf, GoodLines, IntText, FormatText;
    var items := [Int(n)];
    var fs := [Field(key, Arr(items))];
    var v := Obj(fs);
    PrintableSingletons(key, Int(n));
    PrintableSingletons(key, Arr(items));
    PrintedTokens(v);
    MapBlockIs(v);
    MapBlockOf(fs, 0, 0);
    FieldsAreGood(fs, 0);
    SingleField(key, Arr(items));
    SequenceReadsNull(key, Arr(items), 0, [], EMPTY);
    NewKey(key);
    ScalarItemIgnored(n, Draft([Field(key, Null)], true));
    assert Items(items, 0) + [] == Items(items, 0);
  }

  lemma PrintableSingletons(key: string, x: Json)
    requires OneLine(key) && key != PROTO
    ensures x.Int? ==> Printable(x)
    ensures Printable(x) ==> Printable(Arr([x])) && Printable(Obj([Field(key, x)]))
  {}

  lemma SingleField(key: string, x: Json)
    ensures Fields([Field(key, x)], 0) == Keyed("", 0, key, x, 0) + []
  {
    hide Keyed;
  }

  lemma NewKey(key: string)
    ensures With(EMPTY, key, Null) == Draft([Field(key, Null)], true)
  {}

  lemma ScalarItemIgnored(n: int, o: Draft)
    ensures MapOf(Items([Int(n)], 0), 0, o) == o
  {
    hide KeyValueOf, IntText, Calm, Free, Scan;
    var t := IntText(n);
    IntegerIsCalm(n);
    CalmFacts(t);
    DashHasNoColon(t);
    var l := Line(0, "- " + t);
    assert Items([Int(n)], 0) == [l] + [] == [l];
    assert [l][1..] == [];
  }

  lemma DashHasNoColon(t: string)
    requires Calm(t)
    ensures KeyValueOf("- " + t) == None
  {
    hide Trim, Calm;
    CalmFacts(t);
    BareScan("- ", ':');
    ScanConcat("- ", t, Outside, ':');
    var c := "- " + t;
    assert c[0..] == c;
    FreeMeansNoColon(c, 0, Outside);
  }

  lemma UnderscoredIsBare(s: string)
    requires s != "" && s[0] == '_' && s[|s| - 1] == '_'
    requires forall i :: 0 <= i < |s| ==> !IsReserved(s[i]) && s[i] != '\n'
    ensures FormatText(s) == s && OneLine(s)
  {
    assert LowerAscii(s)[0] == '_';
  }

  lemma ProtoIsBare()
    ensures FormatText(PROTO) == PROTO && OneLine(PROTO)
  {
    hide FormatText;
    var s := PROTO;
    assert |s| == 9 && s[0] == '_' && s[1] == '_' && s[2] == 'p' && s[3] == 'r' && s[4] == 'o';
    assert s[5] == 't' && s[6] == 'o' && s[7] == '_' && s[8] == '_';
    UnderscoredIsBare(s);
  }

  lemma SplitAlone(l: string)
    requires OneLine(l)
    ensures SplitLines(l) == [l]
  {
    assert IndexOf(l, '\n') == |l|;
  }

  lemma GoodLineAlone(l: Line)
    requires l.indent == 0 && GoodContent(l.content)
    ensures TokensOf([l.content]) == [l] && WholeLine(l.content)
  {
    hide LineTokens, GoodContent, WholeLine;
    GoodLineTokens(l);
    GoodLineIsWhole(l);
    assert Render(l) == l.content;
  }

  lemma BareLines(k: string, t: string)
    requires OneLine(k) && FormatText(k) == k && Calm(t)
    ensures TokensOf([k + ":"]) == [Line(0, k + ":")] && WholeLine(k + ":")
    ensures TokensOf([k + ": " + t]) == [Line(0, k + ": " + t)] && WholeLine(k + ": " + t)
  {
    hide Calm, FormatText, TokensOf, WholeLine, GoodContent;
    KeyRoundTrip(k);
    HeadedKeyIsGood("", k);
    HeadedPairIsGood("", k, t);
    Brackets(k);
    GoodLineAlone(Line(0, k + ":"));
    GoodLineAlone(Line(0, k + ": " + t));
  }

  lemma BareMaps(k: string, t: string)
    requires OneLine(k) && FormatText(k) == k && Calm(t)
    ensures var a, b := Line(0, k + ":"), Line(0, k + ": " + t);
            var bare := Put(EMPTY, k, Parsed(Null, true));
            && MapOf([a], 0, EMPTY) == bare
            && MapOf([b], 0, EMPTY) == Put(EMPTY, k, ScalarOf(t))
            && MapOf([a, b], 0, EMPTY) == Put(bare, k, ScalarOf(t))
  {
    hide MapOf, FormatText, ScalarOf, Calm, Put;
    var a, b := Line(0, k + ":"), Line(0, k + ": " + t);
    var bare := Put(EMPTY, k, Parsed(Null, true));
    NestedLines(0, k, [], [], 0, EMPTY);
    NestedLines(0, k, [], [b], 0, EMPTY);
    PairLine(0, k, t, [], 0, EMPTY);
    PairLine(0, k, t, [], 0, bare);
    assert [a] + [] + [] == [a] && [a] + [] + [b] == [a, b] && [b] + [] == [b];
    MapNothing(0, bare);
    MapNothing(0, Put(EMPTY, k, ScalarOf(t)));
    MapNothing(0, Put(bare, k, ScalarOf(t)));
  }

  lemma BareText(k: string, t: string)
    requires OneLine(k) && FormatText(k) == k && Calm(t)
    ensures var first, second := k + ":", k + ": " + t;
            var bare := Put(EMPTY, k, Parsed(Null, true));
            && FromYaml(first) == Obj(bare.fields)
            && FromYaml(second) == Obj(Put(EMPTY, k, ScalarOf(t)).fields)
            && FromYaml(first + "\n" + second) == Obj(Put(bare, k, ScalarOf(t)).fields)
  {
    hide TokensOf, SplitLines, MapOf, FormatText, ScalarOf, Calm, Put;
    var first, second := k + ":", k + ": " + t;
    KeyRoundTrip(k);
    BareLines(k, t);
    BareMaps(k, t);
    SplitFirst(first, second);
    SplitAlone(first);
    SplitAlone(second);
    TokensConcat([first], [second]);
    assert [first] + [second] == [first, second];
    assert [Line(0, first)] + [Line(0, second)] == [Line(0, first), Line(0, second)];
  }

  /** An own property `__proto__`: the first assignment takes the accessor away,
      the second makes the property. Either line alone makes none. */
  lemma SecondProtoIsOwn(n: int)
    ensures var first, second := PROTO + ":", PROTO + ": " + IntText(n);
            && FromYaml(first + "\n" + second) == Obj([Field(PROTO, Int(n))])
            && FromYaml(first) == Obj([]) && FromYaml(second) == Obj([])
  {
    hide FromYaml, IntText, FormatText, ParseScalar, Calm, SetField;
    IntegerIsCalm(n);
    ScalarRoundTrip(Int(n));
    ProtoIsBare();
    BareText(PROTO, IntText(n));
    assert SetField([], PROTO, Int(n)) == [] + [Field(PROTO, Int(n))];
  }

  /** The same round trip through the methods that run the source's loops. */
  method PrintAndRead(v: Json) returns (back: Json)
    requires WellFormed(v)
    ensures back == v <==> Survives(v)
  {
    var text := PrintYaml(v);
    back := ReadYaml(text);
    RoundTripExactly(v);
  }
}
