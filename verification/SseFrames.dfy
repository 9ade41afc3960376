/** Frames of any form. */
module SseFrames {
  // Every frame that section 9.2.6 of the HTML Living Standard allows, line by line, and
  // what the client makes of it; and what a stream's events say to their reader.

  import opened Text
  import opened Options
  import opened Json
  import opened JsonText
  import opened JsonReader
  import opened Sse

  /** A line of a frame. A field's value may follow its colon directly, unless it begins
      with a blank itself, or its colon may be left out with it. */
  datatype FrameLine =
    | Comment(text: string)
    | Named(name: string, value: string, blank: bool)
    | Bare(name: string)
    | Empty

  predicate LineOk(l: FrameLine) {
    match l
    case Comment(text) => OneLine(text)
    case Named(name, value, blank) =>
      name != "" && OneLine(name) && ':' !in name && OneLine(value) && (!blank && value != "" ==> value[0] != ' ')
    case Bare(name) => name != "" && OneLine(name) && ':' !in name
    case Empty => true
  }

  function TextOf(l: FrameLine): string {
    match l
    case Comment(text) => ":" + text
    case Named(name, value, blank) => name + (if blank then ": " else ":") + value
    case Bare(name) => name
    case Empty => ""
  }

  function NameOf(l: FrameLine): string { if l.Named? || l.Bare? then l.name else "" }

  function ValueOf(l: FrameLine): string { if l.Named? then l.value else "" }

  function Texts(ls: seq<FrameLine>): seq<string> {
    if ls == [] then [] else Texts(ls[..|ls| - 1]) + [TextOf(ls[|ls| - 1])]
  }

  /** The name of the event: what its last `event` line says, `message` without one. */
  function LastName(ls: seq<FrameLine>): string {
    if ls == [] then "message"
    else if NameOf(ls[|ls| - 1]) == "event" then ValueOf(ls[|ls| - 1])
    else LastName(ls[..|ls| - 1])
  }

  /** The values of the `data` lines, in order. */
  function Data(ls: seq<FrameLine>): seq<string> {
    if ls == [] then []
    else
      Data(ls[..|ls| - 1]) + (if NameOf(ls[|ls| - 1]) == "data" then [ValueOf(ls[|ls| - 1])] else [])
  }

  /** The fields that the standard knows. */
  predicate Known(name: string) { name == "event" || name == "data" || name == "id" || name == "retry" }

  predicate HasField(ls: seq<FrameLine>) { exists i :: 0 <= i < |ls| && Known(NameOf(ls[i])) }

  // ------------------------------------------------------------- line by line

  lemma TextIsOneLine(l: FrameLine)
    requires LineOk(l)
    ensures OneLine(TextOf(l))
  {}

  lemma NamedText(name: string, value: string, blank: bool)
    requires ':' !in name && (!blank && value != "" ==> value[0] != ' ')
    ensures var line := name + (if blank then ": " else ":") + value;
      FieldName(line) == name && FieldValue(line) == value
  {
    if blank {
      NamedLine(name, value);
    } else {
      var line := name + ":" + value;
      assert line[..|name|] == name && line[|name|] == ':' && line[|name| + 1..] == value;
      IndexOfIs(line, ':', |name|);
    }
  }

  lemma BareText(name: string)
    requires ':' !in name
    ensures FieldName(name) == name && FieldValue(name) == ""
  {
    NoIndex(name, ':');
    assert name[..|name|] == name;
  }

  lemma LineReads(f: Frame, l: FrameLine)
    requires LineOk(l)
    ensures ReadLine(f, TextOf(l)) == Frame(
      if NameOf(l) == "event" then ValueOf(l) else f.event,
      if NameOf(l) == "data" then f.dataLines + [ValueOf(l)] else f.dataLines,
      f.sawField || Known(NameOf(l)))
  {
    hide FieldName, FieldValue;
    var t := TextOf(l);
    match l {
      case Comment(text) => assert t[0] == ':';
      case Named(name, value, blank) =>
        NamedText(name, value, blank);
        assert t[0] == name[0] && name[0] in name;
      case Bare(name) =>
        BareText(name);
        assert name[0] in name;
      case Empty =>
    }
  }

  lemma {:induction false} LinesSnoc(f: Frame, lines: seq<string>, line: string)
    ensures ReadLines(f, lines + [line]) == ReadLine(ReadLines(f, lines), line)
    decreases |lines|
  {
    hide ReadLine;
    if lines == [] {
      assert ([] + [line])[1..] == [];
    } else {
      assert (lines + [line])[1..] == lines[1..] + [line];
      LinesSnoc(ReadLine(f, lines[0]), lines[1..], line);
    }
  }

  lemma {:induction false} AllLinesRead(ls: seq<FrameLine>)
    requires forall i :: 0 <= i < |ls| ==> LineOk(ls[i])
    ensures ReadLines(EMPTY_FRAME, Texts(ls)) == Frame(LastName(ls), Data(ls), HasField(ls))
  {
    hide ReadLine, LineOk, TextOf, NameOf, ValueOf;
    if ls != [] {
      var front, last := ls[..|ls| - 1], ls[|ls| - 1];
      AllLinesRead(front);
      LinesSnoc(EMPTY_FRAME, Texts(front), TextOf(last));
      LineReads(ReadLines(EMPTY_FRAME, Texts(front)), last);
      FieldOfMore(ls);
      assert Data(front) + [] == Data(front);
    }
  }

  lemma FieldOfMore(ls: seq<FrameLine>)
    requires ls != []
    ensures HasField(ls) <==> HasField(ls[..|ls| - 1]) || Known(NameOf(ls[|ls| - 1]))
  {
    hide NameOf;
    var front := ls[..|ls| - 1];
    if HasField(front) {
      var i :| 0 <= i < |front| && Known(NameOf(front[i]));
      assert ls[i] == front[i];
    }
    if HasField(ls) {
      var i :| 0 <= i < |ls| && Known(NameOf(ls[i]));
      assert i < |front| ==> front[i] == ls[i];
    }
  }

  lemma {:induction false} SplitOfLines(lines: seq<string>)
    requires lines != [] && forall l :: l in lines ==> OneLine(l)
    ensures SplitLf(JoinLines(lines)) == lines
  {
    hide SplitLf;
    assert lines[0] in lines;
    if |lines| == 1 {
      SplitLfLast(lines[0]);
    } else {
      SplitLfFirst(lines[0], JoinLines(lines[1..]));
      SplitOfLines(lines[1..]);
      assert lines == [lines[0]] + lines[1..];
    }
  }

  lemma {:induction false} TextsAreLines(ls: seq<FrameLine>)
    requires forall i :: 0 <= i < |ls| ==> LineOk(ls[i])
    ensures |Texts(ls)| == |ls| && forall t :: t in Texts(ls) ==> OneLine(t)
  {
    hide LineOk, TextOf;
    if ls != [] {
      TextsAreLines(ls[..|ls| - 1]);
      TextIsOneLine(ls[|ls| - 1]);
    }
  }

  /** For every frame: comments, unknown fields and empty lines are skipped, the last name
      counts, the data lines are joined by line feeds in order, and without any field
      there is no event. */
  lemma AnyFrameReads(ls: seq<FrameLine>)
    requires ls != [] && forall i :: 0 <= i < |ls| ==> LineOk(ls[i])
    ensures ParseFrame(JoinLines(Texts(ls)))
            == if HasField(ls) then Some(Event(LastName(ls), JoinLines(Data(ls)))) else None
  {
    hide SplitLf, ReadLines, LineOk, HasField, LastName, Data, JoinLines, Texts;
    TextsAreLines(ls);
    SplitOfLines(Texts(ls));
    AllLinesRead(ls);
  }

  // ------------------------------------------------- what the reader is told

  /** What the server has sent, and what a client makes of events whose data it reads as
      JSON. */
  function Sends(ws: seq<Write>): seq<(string, Option<Json>)> {
    if ws == [] then []
    else (match ws[0] case Sent(t, data) => [(t, Some(data))] case KeepAlive => []) + Sends(ws[1..])
  }

  function Told(es: seq<Event>): seq<(string, Option<Json>)> {
    if es == [] then [] else [(es[0].event, ReadJson(es[0].data))] + Told(es[1..])
  }

  lemma {:induction false} ToldAsSent(ws: seq<Write>)
    requires forall i :: 0 <= i < |ws| && ws[i].Sent? ==> Plain(ws[i].data)
    ensures Told(Expected(ws)) == Sends(ws)
  {
    hide ReadJson, Stringify, Plain;
    if ws != [] {
      ToldAsSent(ws[1..]);
      match ws[0]
      case Sent(t, data) =>
        StringifyReads(data);
        var e := [Event(t, Stringify(data))];
        assert (e + Expected(ws[1..]))[1..] == Expected(ws[1..]);
      case KeepAlive =>
        assert [] + Expected(ws[1..]) == Expected(ws[1..]) && [] + Sends(ws[1..]) == Sends(ws[1..]);
    }
  }

  /** Whatever the cutting and the keep-alives: a client that reads the data as JSON is
      told the types and values that were sent, in order. */
  lemma ClientIsToldAll(ws: seq<Write>, chunks: seq<string>)
    requires forall i :: 0 <= i < |ws| && ws[i].Sent? ==> WholeLine(ws[i].eventType) && Plain(ws[i].data)
    requires Concat(chunks) == StreamOf(ws)
    ensures Told(EventsOf(Feed("", chunks).frames)) == Sends(ws)
  {
    hide Feed, EventsOf, StreamOf, Expected, Told, Sends, Plain, WholeLine;
    StreamRoundTrip(ws, chunks);
    ToldAsSent(ws);
  }
}
