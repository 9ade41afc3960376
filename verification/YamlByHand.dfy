/** YAML written by hand. */
module YamlByHand {
  // What people write and the printer does not: comments, the line ends of Windows,
  // double quotes, signs, and sequences indented under their key.

  import opened Text
  import opened Options
  import opened Json
  import opened YamlScalar
  import opened YamlPrinter
  import opened YamlParser
  import opened YamlLayout
  import opened YamlRoundTrip

  // ---------------------------------------------------- a comment changes nothing

  lemma FirstCommentIs(line: string, r: int)
    requires FirstComment(line, r)
    ensures CommentFrom(line, 0, Outside) == r
  {
    hide CommentAt;
    CommentIsFirst(line);
    AtInRange(line);
  }

  lemma AtInRange(line: string)
    ensures forall i :: CommentAt(line, i) ==> 0 <= i < |line|
  {}

  lemma TrimStartOfBlank(s: string)
    ensures TrimStart(s + " ") == if TrimStart(s) == "" then "" else TrimStart(s) + " "
  {
    if s == "" {
      assert "" + " " == " " && " "[1..] == "";
    } else {
      assert (s + " ")[1..] == s[1..] + " ";
      if IsSpace(s[0]) { TrimStartOfBlank(s[1..]); }
    }
  }

  lemma TrimEndOfBlank(t: string)
    ensures TrimEnd(t + " ") == TrimEnd(t)
  {
    assert (t + " ")[..|t|] == t;
  }

  /** A blank at the end of a line makes no difference. */
  lemma TrimOfBlank(s: string)
    ensures Trim(s + " ") == Trim(s)
    ensures Trim(s) != "" ==> |s + " "| - |TrimStart(s + " ")| == |s| - |TrimStart(s)|
  {
    hide TrimStart, TrimEnd;
    TrimStartOfBlank(s);
    TrimEndOfBlank(TrimStart(s));
    TrimEndOfNothing();
  }

  lemma TrimEndOfNothing()
    ensures TrimEnd("") == ""
  {}

  lemma SamePrefix(t: string, c: string, i: int)
    ensures 0 <= i < |t| ==> (CommentAt(t + " #" + c, i) <==> CommentAt(t, i))
  {
    hide Scan;
    var line := t + " #" + c;
    assert 0 <= i < |t| ==> line[..i] == t[..i] && line[i] == t[i] && (i > 0 ==> line[i - 1] == t[i - 1]);
  }

  lemma OwnComment(t: string, c: string)
    requires Scan(t, Outside) == Outside
    ensures var line := t + " #" + c; !CommentAt(line, |t|) && CommentAt(line, |t| + 1)
  {
    hide Scan;
    var line := t + " #" + c;
    assert line[|t|] == ' ' && line[|t| + 1] == '#';
    assert line[..|t| + 1] == t + [' '];
    ScanSnoc(t, ' ', Outside);
  }

  lemma CommentBehind(t: string, c: string)
    requires Scan(t, Outside) == Outside
    ensures Uncommented(t + " #" + c) == if CommentFrom(t, 0, Outside) < 0 then t + " " else Uncommented(t)
  {
    hide CommentAt, CommentFrom, Scan;
    var line, r := t + " #" + c, CommentFrom(t, 0, Outside);
    CommentIsFirst(t);
    AtInRange(t);
    OwnComment(t, c);
    forall i ensures 0 <= i < |t| ==> (CommentAt(line, i) <==> CommentAt(t, i)) { SamePrefix(t, c, i); }
    var at := if r < 0 then |t| + 1 else r;
    FirstCommentIs(line, at);
    assert r < 0 ==> line[..at] == t + " ";
    assert r >= 0 ==> line[..at] == t[..r];
  }

  /** Behind a line that ends outside quotes, a comment adds nothing to what the line
      is read as, whatever it says. */
  lemma CommentIsDropped(t: string, c: string)
    requires Scan(t, Outside) == Outside
    ensures LineTokens(t + " #" + c) == LineTokens(t)
  {
    hide CommentFrom, Scan, Trim, TrimStart;
    CommentBehind(t, c);
    TrimOfBlank(t);
  }

  /** A line that is only a comment is read as nothing. */
  lemma CommentLineIsNothing(pad: nat, c: string)
    ensures LineTokens(Spaces(pad) + "#" + c) == []
  {
    hide Scan, CommentFrom, Trim;
    var line := Spaces(pad) + "#" + c;
    BareScan(Spaces(pad), '#');
    assert line[..pad] == Spaces(pad) && line[pad] == '#';
    assert CommentAt(line, pad);
    forall i | 0 <= i < pad ensures !CommentAt(line, i) { assert line[i] == Spaces(pad)[i]; }
    FirstCommentIs(line, pad);
    SpacesTrim(pad);
  }

  lemma {:induction false} SpacesTrim(pad: nat)
    ensures TrimStart(Spaces(pad)) == "" && Trim(Spaces(pad)) == ""
  {
    if pad > 0 {
      assert Spaces(pad)[1..] == Spaces(pad - 1);
      SpacesTrim(pad - 1);
    }
  }

  // --------------------------------------------------------------- whole texts

  /** What a person may add to a text without changing what it says: a comment behind
      a line, and lines of comment above it. */
  datatype Note = Note(above: seq<string>, behind: Option<string>)

  function CommentLines(above: seq<string>): seq<string> {
    if above == [] then [] else ["#" + above[0]] + CommentLines(above[1..])
  }

  function NotedLine(line: string, behind: Option<string>): string {
    if behind == None then line else line + " #" + behind.value
  }

  function Noted(lines: seq<string>, notes: seq<Note>): seq<string>
    requires |notes| == |lines|
  {
    if lines == [] then []
    else
      CommentLines(notes[0].above) + [NotedLine(lines[0], notes[0].behind)] + Noted(lines[1..], notes[1..])
  }

  /** Notes that stay on their lines, behind lines that end outside quotes. */
  predicate NoteOk(line: string, note: Note) {
    && (forall c :: c in note.above ==> WholeLine(c))
    && (note.behind.Some? ==> WholeLine(note.behind.value) && Scan(line, Outside) == Outside)
  }

  predicate NotesOk(lines: seq<string>, notes: seq<Note>) {
    |notes| == |lines| && forall i :: 0 <= i < |lines| ==> NoteOk(lines[i], notes[i])
  }

  lemma HashLine(c: string)
    ensures LineTokens("#" + c) == [] && (WholeLine(c) ==> WholeLine("#" + c))
  {
    hide LineTokens;
    CommentLineIsNothing(0, c);
    assert Spaces(0) + "#" + c == "#" + c;
  }

  lemma {:induction false} CommentLinesAreNothing(above: seq<string>)
    ensures TokensOf(CommentLines(above)) == []
    ensures (forall c :: c in above ==> WholeLine(c)) ==> forall l :: l in CommentLines(above) ==> WholeLine(l)
  {
    hide LineTokens, WholeLine;
    if above != [] {
      var rest := CommentLines(above[1..]);
      HashLine(above[0]);
      CommentLinesAreNothing(above[1..]);
      assert CommentLines(above) == ["#" + above[0]] + rest && CommentLines(above)[1..] == rest;
      assert above[0] in above && forall c :: c in above[1..] ==> c in above;
    }
  }

  lemma NotedLineIsWhole(line: string, note: Note)
    requires NoteOk(line, note) && WholeLine(line)
    ensures WholeLine(NotedLine(line, note.behind))
    ensures LineTokens(NotedLine(line, note.behind)) == LineTokens(line)
  {
    hide LineTokens, Scan;
    if note.behind.Some? {
      CommentIsDropped(line, note.behind.value);
    }
  }

  lemma TokensOfOne(line: string)
    ensures TokensOf([line]) == LineTokens(line)
  {
    hide LineTokens;
    assert [line][1..] == [];
  }

  lemma {:induction false} NotesAreDropped(lines: seq<string>, notes: seq<Note>)
    requires NotesOk(lines, notes) && forall l :: l in lines ==> WholeLine(l)
    ensures TokensOf(Noted(lines, notes)) == TokensOf(lines)
    ensures (forall l :: l in Noted(lines, notes) ==> WholeLine(l)) && (lines != [] ==> Noted(lines, notes) != [])
  {
    hide LineTokens, NoteOk, WholeLine, NotedLine;
    if lines != [] {
      var above, own := CommentLines(notes[0].above), NotedLine(lines[0], notes[0].behind);
      var rest := Noted(lines[1..], notes[1..]);
      NotesAreDropped(lines[1..], notes[1..]);
      assert NoteOk(lines[0], notes[0]) && lines[0] in lines;
      AboveIsWhole(lines[0], notes[0]);
      CommentLinesAreNothing(notes[0].above);
      NotedLineIsWhole(lines[0], notes[0]);
      TokensOfOne(own);
      TokensConcat(above + [own], rest);
      TokensConcat(above, [own]);
    }
  }

  lemma AboveIsWhole(line: string, note: Note)
    requires NoteOk(line, note)
    ensures forall c :: c in note.above ==> WholeLine(c)
  {}

  /** For every text: comments behind its lines and lines of comment between them change
      nothing of what it is read as. */
  lemma CommentsChangeNothing(lines: seq<string>, notes: seq<Note>)
    requires lines != [] && NotesOk(lines, notes) && forall l :: l in lines ==> WholeLine(l)
    ensures FromYaml(JoinLines(Noted(lines, notes)) + "\n") == FromYaml(JoinLines(lines) + "\n")
  {
    hide LineTokens, NoteOk, WholeLine, SplitLines, FromTokens, TokensOf;
    NotesAreDropped(lines, notes);
    SplitOfJoin(lines);
    SplitOfJoin(Noted(lines, notes));
    TokensConcat(lines, [""]);
    TokensConcat(Noted(lines, notes), [""]);
  }

  // ------------------------------------------------------------- line endings

  /** Every line ended by a carriage return and a line feed. */
  function WithCrLf(lines: seq<string>): string {
    if lines == [] then "" else lines[0] + "\r\n" + WithCrLf(lines[1..])
  }

  lemma CrLfFirst(l: string, rest: string)
    requires OneLine(l)
    ensures SplitLines(l + "\r\n" + rest) == [l] + SplitLines(rest)
  {
    hide SplitLines;
    var text := l + "\r\n" + rest;
    assert text[..|l| + 1] == l + "\r" && text[|l| + 2..] == rest && text[|l| + 1] == '\n';
    IndexOfIs(text, '\n', |l| + 1);
    assert (l + "\r")[..|l|] == l;
    SplitAt(text, |l| + 1);
  }

  lemma SplitAt(text: string, i: nat)
    requires i < |text| && IndexOf(text, '\n') == i
    ensures SplitLines(text) == [DropCr(text[..i])] + SplitLines(text[i + 1..])
  {
    hide DropCr;
  }

  lemma {:induction false} CrLfSplits(lines: seq<string>)
    requires forall l :: l in lines ==> OneLine(l)
    ensures SplitLines(WithCrLf(lines)) == lines + [""]
  {
    hide SplitLines;
    if lines == [] {
      SplitNothing();
    } else {
      assert lines[0] in lines;
      CrLfFirst(lines[0], WithCrLf(lines[1..]));
      CrLfSplits(lines[1..]);
      assert lines == [lines[0]] + lines[1..];
    }
  }

  lemma SplitNothing()
    ensures SplitLines("") == [""]
  {}

  /** A text with the line ends of Windows is read as the one with line feeds alone. */
  lemma CrLfReadsAlike(lines: seq<string>)
    requires lines != [] && forall l :: l in lines ==> WholeLine(l)
    ensures FromYaml(WithCrLf(lines)) == FromYaml(JoinLines(lines) + "\n")
  {
    hide SplitLines, FromTokens, TokensOf;
    CrLfSplits(lines);
    SplitOfJoin(lines);
  }

  // ------------------------------------------------------------------ scalars

  /** A text between double quotes, its own quotes escaped. */
  function EscapeQuotes(s: string): string {
    if s == "" then "" else (if s[0] == '"' then "\\\"" else [s[0]]) + EscapeQuotes(s[1..])
  }

  lemma EscapedStart(s: string)
    ensures EscapeQuotes(s) != "" ==> EscapeQuotes(s)[0] != '"'
  {}

  lemma {:induction false} UnescapeOfEscape(s: string)
    ensures UnescapeQuotes(EscapeQuotes(s)) == s
  {
    if s != "" {
      var e, rest := EscapeQuotes(s), EscapeQuotes(s[1..]);
      UnescapeOfEscape(s[1..]);
      EscapedStart(s[1..]);
      if s[0] == '"' {
        assert e[0] == '\\' && e[1] == '"' && e[2..] == rest;
      } else {
        assert e[0] == s[0] && e[1..] == rest;
      }
      assert s == [s[0]] + s[1..];
    }
  }

  /** For every text: between double quotes, with its own escaped, it is read as itself. */
  lemma DoubleQuotedReads(s: string)
    ensures ParseScalar("\"" + EscapeQuotes(s) + "\"") == Str(s)
  {
    var e := EscapeQuotes(s);
    var t := "\"" + e + "\"";
    UnescapeOfEscape(s);
    assert t[0] == '"' && t[|t| - 1] == '"' && t[1..|t| - 1] == e;
    TrimOfTrimmed(t);
  }

  /** Digits behind a sign. */
  lemma SignedDigitsRead(sign: char, digits: string)
    requires (sign == '+' || sign == '-') && digits != "" && AllDigits(digits)
    ensures ReadScalar([sign] + digits) == Int((if sign == '-' then -1 else 1) * ParseNat(digits))
  {
    hide ParseNat, IsDecimalText, UndoubleQuotes, UnescapeQuotes;
    var t := [sign] + digits;
    assert t[0] == sign && t[1..] == digits;
    assert IsDigit(t[|t| - 1]) by { assert t[|t| - 1] == digits[|digits| - 1]; }
    assert !WrappedIn(t, '"') && !WrappedIn(t, '\'');
  }

  /** A plus sign is allowed, and makes no difference. */
  lemma PlusReads(n: nat)
    ensures ParseScalar("+" + NatText(n)) == ParseScalar(NatText(n)) == Int(n)
  {
    hide ReadScalar, Trim, ParseNat, NatText;
    ParseOfNatText(n);
    SignedDigitsRead('+', NatText(n));
    IntegerReads(n);
    TrimOfTrimmed("+" + NatText(n));
    TrimOfTrimmed(NatText(n));
  }

  lemma NullsRead()
    ensures ParseScalar("~") == Null && ParseScalar("null") == Null && ParseScalar("") == Null
  {
    hide Trim;
    TrimOfTrimmed("~");
    TrimOfTrimmed("null");
    TrimOfNothing();
  }

  /** The words and brackets that are not texts. */
  lemma WordsRead()
    ensures ParseScalar("~") == Null && ParseScalar("null") == Null && ParseScalar("") == Null
    ensures ParseScalar("true") == Bool(true) && ParseScalar("false") == Bool(false)
    ensures ParseScalar("[]") == Arr([]) && ParseScalar("{}") == Obj([])
  {
    hide ParseScalar;
    NullsRead();
    ScalarRoundTrip(Bool(true));
    ScalarRoundTrip(Bool(false));
    BracketsRead();
  }

  /** What such words are as keys. */
  lemma WordsAsKeys()
    ensures UnquoteKey("~") == "null" && UnquoteKey("[]") == "" && UnquoteKey("{}") == "[object Object]"
  {
    hide ParseScalar;
    WordsRead();
  }

  // ------------------------------------------------------ indented sequences

  /** Under its key and one level deeper, a sequence is read as itself: what the printer
      would have to write for `RoundTripExactly` to hold of it. */
  lemma IndentedSequenceIsRead(key: string, items: seq<Json>, n: nat, rest: seq<Line>, o: Draft)
    requires OneLine(key) && key != PROTO && items != [] && PrintableItems(items) && Printable(Arr(items))
    requires ShapedItems(items) && Ends(rest, 2 * n + 1)
    ensures MapOf([Line(2 * n, FormatText(key) + ":")] + Items(items, n + 1) + rest, 2 * n, o)
            == MapOf(rest, 2 * n, With(o, key, Arr(items)))
  {
    hide MapOf, With, BlockOf, FormatText, Items, GoodLines, Printable, Shaped;
    var v := Arr(items);
    BlockOfArray(items, n + 1);
    BlockIsGood(v, n + 1) by { PrintableIsClean(v); }
    BlockBack(v, n + 1);
    ShapedArray(items);
    DeepLines(Items(items, n + 1), n);
    NestedLines(2 * n, key, Items(items, n + 1), rest, 2 * n, o);
  }

  lemma PrintableIsClean(v: Json)
    requires Printable(v)
    ensures Clean(v)
  {}

  lemma BlockOfArray(items: seq<Json>, n: nat)
    ensures Block(Arr(items), n) == Items(items, n)
  {}

  lemma ShapedArray(items: seq<Json>)
    ensures Shaped(Arr(items)) <==> ShapedItems(items)
  {}

  lemma DeepLines(ls: seq<Line>, n: nat)
    requires GoodLines(ls, 2 * (n + 1))
    ensures forall i :: 0 <= i < |ls| ==> ls[i].indent >= 2 * n + 1
  {}
}
