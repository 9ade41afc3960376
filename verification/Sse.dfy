/** Server-sent events. */
module Sse {
  // The server-sent event stream (section 9.2.6 of the HTML Living Standard): the
  // client's incremental parser and the server's frame writer.

  import opened Text
  import opened Json
  import opened Numerals
  import opened JsonText
  import opened Options

  // ------------------------------------------------------- splitting frames

  /** `s.replace(/\r\n/g, '\n')` */
  function Normalize(s: string): (r: string)
    ensures |r| <= |s|
  {
    if |s| < 2 then s
    else if s[0] == '\r' && s[1] == '\n' then "\n" + Normalize(s[2..])
    else [s[0]] + Normalize(s[1..])
  }

  /** `s.indexOf('\n\n')`, or the length where there is none. */
  function Separator(s: string): (i: nat)
    ensures i <= |s|
    ensures i < |s| ==> i + 1 < |s| && s[i] == '\n' && s[i + 1] == '\n'
  {
    if s == "" then 0
    else if |s| >= 2 && s[0] == '\n' && s[1] == '\n' then 0
    else 1 + Separator(s[1..])
  }

  /** The complete frames in a buffer, and what is left after the last of them. */
  datatype Drained = Drained(frames: seq<string>, rest: string)

  function Drain(s: string): Drained
    decreases |s|
  {
    var i := Separator(s);
    if i == |s| then Drained([], s)
    else
      var d := Drain(s[i + 2..]);
      Drained([s[..i]] + d.frames, d.rest)
  }

  function PushFrames(buffer: string, chunk: string): Drained { Drain(Normalize(buffer + chunk)) }

  /** Pushing chunks one after the other. */
  function Feed(buffer: string, chunks: seq<string>): Drained
    decreases |chunks|
  {
    if chunks == [] then Drained([], buffer)
    else
      var first := PushFrames(buffer, chunks[0]);
      var more := Feed(first.rest, chunks[1..]);
      Drained(first.frames + more.frames, more.rest)
  }

  function Concat(chunks: seq<string>): string {
    if chunks == [] then "" else chunks[0] + Concat(chunks[1..])
  }

  // ---------------------------------------------------------- parsing a frame

  datatype Event = Event(event: string, data: string)

  /** `raw.split('\n')` */
  function SplitLf(s: string): (r: seq<string>)
    ensures r != []
    ensures forall l :: l in r ==> OneLine(l)
  {
    var i := IndexOf(s, '\n');
    if i == |s| then
      assert s[..i] == s;
      [s]
    else [s[..i]] + SplitLf(s[i + 1..])
  }

  /** The variables of the frame loop. */
  datatype Frame = Frame(event: string, dataLines: seq<string>, sawField: bool)

  const EMPTY_FRAME := Frame("message", [], false)

  function FieldName(line: string): string { line[..IndexOf(line, ':')] }

  function FieldValue(line: string): string {
    var colon := IndexOf(line, ':');
    var value := if colon == |line| then "" else line[colon + 1..];
    if value != "" && value[0] == ' ' then value[1..] else value
  }

  function ReadLine(f: Frame, line: string): Frame {
    if line == "" || line[0] == ':' then f
    else if FieldName(line) == "event" then Frame(FieldValue(line), f.dataLines, true)
    else if FieldName(line) == "data" then Frame(f.event, f.dataLines + [FieldValue(line)], true)
    else if FieldName(line) == "id" || FieldName(line) == "retry" then f.(sawField := true)
    else f
  }

  function ReadLines(f: Frame, lines: seq<string>): Frame
    decreases |lines|
  {
    if lines == [] then f else ReadLines(ReadLine(f, lines[0]), lines[1..])
  }

  function FrameEvent(f: Frame): Option<Event> {
    if f.sawField then Some(Event(f.event, JoinLines(f.dataLines))) else None
  }

  function ParseFrame(raw: string): Option<Event> { FrameEvent(ReadLines(EMPTY_FRAME, SplitLf(raw))) }

  function EventsOf(frames: seq<string>): seq<Event> {
    if frames == [] then []
    else (match ParseFrame(frames[0]) case Some(e) => [e] case None => []) + EventsOf(frames[1..])
  }

  lemma {:induction false} EventsConcat(a: seq<string>, b: seq<string>)
    ensures EventsOf(a + b) == EventsOf(a) + EventsOf(b)
  {
    hide ParseFrame;
    if a == [] {
      assert a + b == b;
    } else {
      assert (a + b)[1..] == a[1..] + b;
      EventsConcat(a[1..], b);
    }
  }

  method ParseRawFrame(raw: string) returns (r: Option<Event>)
    ensures r == ParseFrame(raw)
  {
    hide FieldName, FieldValue, SplitLf;
    var event := "message";
    var dataLines: seq<string> := [];
    var sawField := false;
    var lines := SplitLf(raw);
    for i := 0 to |lines|
      invariant ReadLines(Frame(event, dataLines, sawField), lines[i..]) == ReadLines(EMPTY_FRAME, lines)
    {
      var line := lines[i];
      assert lines[i..][0] == line && lines[i..][1..] == lines[i + 1..];
      if line == "" || line[0] == ':' { continue; }
      var field, value := FieldName(line), FieldValue(line);
      if field == "event" {
        event := value;
        sawField := true;
      } else if field == "data" {
        dataLines := dataLines + [value];
        sawField := true;
      } else if field == "id" || field == "retry" {
        sawField := true;
      }
    }
    if !sawField { return None; }
    return Some(Event(event, JoinLines(dataLines)));
  }

  class SseParser {
    var buffer: string

    constructor ()
      ensures buffer == ""
    {
      buffer := "";
    }

    method Push(chunk: string) returns (events: seq<Event>)
      modifies this
      ensures events == EventsOf(PushFrames(old(buffer), chunk).frames)
      ensures buffer == PushFrames(old(buffer), chunk).rest
    {
      hide ParseFrame, Normalize, Separator, Drain, EventsOf;
      buffer := Normalize(buffer + chunk);
      ghost var all := Drain(buffer);
      ghost var done: seq<string> := [];
      events := [];
      OneEvent("");
      while Separator(buffer) != |buffer|
        invariant events == EventsOf(done)
        invariant all == Drained(done + Drain(buffer).frames, Drain(buffer).rest)
        decreases |buffer|
      {
        var sep := Separator(buffer);
        DrainStep(buffer, done);
        var rawFrame := buffer[..sep];
        buffer := buffer[sep + 2..];
        var parsed := ParseRawFrame(rawFrame);
        EventsConcat(done, [rawFrame]);
        OneEvent(rawFrame);
        if parsed.Some? { events := events + [parsed.value]; }
        done := done + [rawFrame];
      }
      DrainNothing(buffer);
      assert done + [] == done;
    }
  }

  lemma OneEvent(raw: string)
    ensures EventsOf([raw]) == (match ParseFrame(raw) case Some(e) => [e] case None => [])
    ensures EventsOf([]) == []
  {
    hide ParseFrame;
    assert [raw][1..] == [];
  }

  lemma DrainStep(s: string, done: seq<string>)
    requires Separator(s) != |s|
    ensures var i := Separator(s); var d := Drain(s[i + 2..]);
            i + 2 <= |s| && |s[i + 2..]| < |s|
            && Drain(s).rest == d.rest
            && done + Drain(s).frames == (done + [s[..i]]) + d.frames
  {
    hide Separator, Drain;
    DrainAt(s);
    var i := Separator(s);
    var d := Drain(s[i + 2..]);
    assert (done + [s[..i]]) + d.frames == done + ([s[..i]] + d.frames);
  }

  // ------------------------------------------------------- chunk independence

  const CRLF := "\r\n"
  const CRCRLF := "\r\r\n"

  predicate EndsInCr(s: string) { s != "" && s[|s| - 1] == '\r' }

  lemma NormalizeCons(c: char, s: string)
    requires c != '\r' || s == "" || s[0] != '\n'
    ensures Normalize([c] + s) == [c] + Normalize(s)
  {
    assert ([c] + s)[1..] == s;
  }

  lemma NormalizeCrLfCons(s: string)
    ensures Normalize(CRLF + s) == "\n" + Normalize(s)
  {
    assert (CRLF + s)[2..] == s;
  }

  lemma {:induction false} NormalizeConcat(u: string, v: string)
    requires !EndsInCr(u) || v == "" || v[0] != '\n'
    ensures Normalize(u + v) == Normalize(u) + Normalize(v)
    decreases |u|
  {
    hide Normalize;
    if u == "" {
      assert u + v == v;
      NormalizeNothing();
    } else if |u| >= 2 && u[0] == '\r' && u[1] == '\n' {
      assert u == CRLF + u[2..] && u + v == CRLF + (u[2..] + v);
      NormalizeConcat(u[2..], v);
      NormalizeCrLfCons(u[2..]);
      NormalizeCrLfCons(u[2..] + v);
    } else {
      assert u == [u[0]] + u[1..] && u + v == [u[0]] + (u[1..] + v);
      NormalizeConcat(u[1..], v);
      NormalizeCons(u[0], u[1..]);
      NormalizeCons(u[0], u[1..] + v);
    }
  }

  lemma {:induction false} NormalizeKeeps(s: string)
    requires !Occurs(CRLF, s)
    ensures Normalize(s) == s
  {
    if |s| >= 2 {
      assert s[0] == '\r' && s[1] == '\n' ==> CRLF <= s;
      NormalizeKeeps(s[1..]);
      assert s == [s[0]] + s[1..];
    }
  }

  lemma {:induction false} NormalizeShrinks(s: string)
    requires Occurs(CRLF, s)
    ensures |Normalize(s)| < |s|
  {
    if !(CRLF <= s) { NormalizeShrinks(s[1..]); }
  }

  lemma CrLfStart(r: string)
    ensures CRLF <= r <==> |r| >= 2 && r[0] == '\r' && r[1] == '\n'
  {
    assert CRLF[0] == '\r' && CRLF[1] == '\n';
    assert |r| >= 2 && r[0] == '\r' && r[1] == '\n' ==> r[..2] == CRLF;
  }

  /** Without `\r\r\n`, normalizing leaves no CRLF behind. */
  lemma {:induction false} NormalizedHasNoCrLf(s: string)
    requires !Occurs(CRCRLF, s)
    ensures !Occurs(CRLF, Normalize(s))
    decreases |s|
  {
    if |s| >= 2 {
      if s[0] == '\r' && s[1] == '\n' {
        assert !Occurs(CRCRLF, s[1..]) && s[1..][1..] == s[2..];
        NormalizedHasNoCrLf(s[2..]);
        var r := "\n" + Normalize(s[2..]);
        assert r[1..] == Normalize(s[2..]) && r[0] == '\n';
        CrLfStart(r);
      } else {
        NormalizedHasNoCrLf(s[1..]);
        var t := Normalize(s[1..]);
        FirstOfNormalized(s[1..]);
        assert |s| >= 3 && s[0] == '\r' && s[1] == '\r' && s[2] == '\n' ==> CRCRLF <= s;
        var r := [s[0]] + t;
        assert r[1..] == t && r[0] == s[0] && r[1] == t[0];
        CrLfStart(r);
      }
    } else {
      assert |CRLF| == 2 && !(CRLF <= s) && !(CRLF <= "") && !Occurs(CRLF, "");
      assert |s| == 1 ==> s[1..] == "";
    }
  }

  lemma FirstOfNormalized(s: string)
    requires s != ""
    ensures Normalize(s) != ""
    ensures Normalize(s)[0] == '\n' ==> s[0] == '\n' || (|s| >= 2 && s[0] == '\r' && s[1] == '\n')
  {
    assert |s| >= 2 && !(s[0] == '\r' && s[1] == '\n') ==> Normalize(s)[0] == s[0];
  }

  lemma EndAndStart(u: string, v: string)
    requires EndsInCr(u) && v != "" && v[0] == '\n'
    ensures Normalize(u + v) == Normalize(u[..|u| - 1]) + Normalize("\r" + v)
    ensures Normalize(u) == Normalize(u[..|u| - 1]) + "\r"
  {
    var init := u[..|u| - 1];
    assert u == init + "\r" && u + v == init + ("\r" + v);
    NormalizeConcat(init, "\r" + v);
    NormalizeConcat(init, "\r");
  }

  lemma {:induction false} LastKept(p: string)
    requires p != ""
    ensures Normalize(p) != "" && Normalize(p)[|Normalize(p)| - 1] == p[|p| - 1]
    decreases |p|
  {
    if |p| >= 2 {
      if p[0] == '\r' && p[1] == '\n' {
        if |p| > 2 { LastKept(p[2..]); }
      } else {
        LastKept(p[1..]);
      }
    }
  }

  /** Normalizing again after more text has arrived changes nothing. */
  lemma NormalizeResumes(p: string, c: string)
    requires !Occurs(CRCRLF, p)
    ensures Normalize(Normalize(p) + c) == Normalize(p + c)
  {
    hide Normalize, Occurs;
    var q := Normalize(p);
    NormalizedHasNoCrLf(p);
    NormalizeKeeps(q);
    if p != "" { LastKept(p); } else { assert Normalize("") == "" by { NormalizeNothing(); } }
    if EndsInCr(p) && c != "" && c[0] == '\n' {
      EndAndStart(p, c);
      EndAndStart(q, c);
      var init := p[..|p| - 1];
      assert q[..|q| - 1] == Normalize(init);
      OccursInEither(CRLF, Normalize(init), "\r");
      NormalizeKeeps(Normalize(init));
    } else {
      NormalizeConcat(p, c);
      NormalizeConcat(q, c);
    }
  }

  lemma NormalizeNothing()
    ensures Normalize("") == ""
  {}

  lemma OccursInEither(p: string, s: string, t: string)
    ensures Occurs(p, s) ==> Occurs(p, s + t)
    ensures Occurs(p, t) ==> Occurs(p, s + t)
  {
    hide Occurs;
    if Occurs(p, s) { OccursInPart(p, "", s, t); }
    if Occurs(p, t) { OccursInPart(p, s, t, ""); }
    assert "" + s + t == s + t && s + t + "" == s + t;
  }

  lemma {:induction false} SeparatorIs(s: string, x: string)
    requires Separator(s) != |s|
    ensures Separator(s + x) == Separator(s)
  {
    if !(s[0] == '\n' && s[1] == '\n') {
      assert (s + x)[1..] == s[1..] + x;
      SeparatorIs(s[1..], x);
    }
  }

  /** Draining a normalized buffer first and the rest with new text later gives
      the frames of draining it all at once. */
  lemma {:induction false} DrainResumes(x: string, c: string)
    requires !Occurs(CRLF, x)
    ensures var d := Drain(x); var more := Drain(Normalize(d.rest + c));
            Drain(Normalize(x + c)) == Drained(d.frames + more.frames, more.rest)
    decreases |x|
  {
    hide Normalize, Occurs, Separator, Drain;
    var i := Separator(x);
    if i != |x| {
      var head, tail := x[..i + 2], x[i + 2..];
      assert x == head + tail && x + c == head + (tail + c);
      OccursInEither(CRLF, head, tail);
      NormalizeConcat(head, tail + c);
      NormalizeKeeps(head);
      SeparatorOfHead(x, i);
      SeparatorIs(head, Normalize(tail + c));
      var y := head + Normalize(tail + c);
      assert y[..i] == x[..i] && y[i + 2..] == Normalize(tail + c);
      DrainResumes(tail, c);
      DrainAt(x);
      DrainAt(y);
      var d, more := Drain(tail), Drain(Normalize(Drain(tail).rest + c));
      assert ([x[..i]] + d.frames) + more.frames == [x[..i]] + (d.frames + more.frames);
    } else {
      DrainNothing(x);
    }
  }

  lemma DrainAt(x: string)
    requires Separator(x) != |x|
    ensures var i := Separator(x); var d := Drain(x[i + 2..]);
            Drain(x) == Drained([x[..i]] + d.frames, d.rest)
  {}

  lemma DrainNothing(x: string)
    requires Separator(x) == |x|
    ensures Drain(x) == Drained([], x)
  {}

  lemma {:induction false} SeparatorOfHead(x: string, i: nat)
    requires i == Separator(x) && i != |x|
    ensures Separator(x[..i + 2]) == i
  {
    var h := x[..i + 2];
    if i > 0 {
      assert h[1..] == x[1..][..i + 1];
      SeparatorOfHead(x[1..], i - 1);
    }
  }

  lemma PushResumes(p: string, c: string)
    requires !Occurs(CRCRLF, p)
    ensures var d := Drain(Normalize(p)); var more := PushFrames(d.rest, c);
            Drain(Normalize(p + c)) == Drained(d.frames + more.frames, more.rest)
  {
    hide Drain, Normalize, Occurs;
    NormalizeResumes(p, c);
    NormalizedHasNoCrLf(p);
    DrainResumes(Normalize(p), c);
  }

  lemma {:induction false} FeedResumes(p: string, chunks: seq<string>)
    requires !Occurs(CRCRLF, p + Concat(chunks))
    ensures var d := Drain(Normalize(p)); var more := Feed(d.rest, chunks);
            Drain(Normalize(p + Concat(chunks))) == Drained(d.frames + more.frames, more.rest)
    decreases chunks
  {
    hide Drain, Normalize, Occurs, PushFrames;
    OccursInEither(CRCRLF, p, Concat(chunks));
    if chunks == [] {
      assert p + Concat(chunks) == p;
      assert Drain(Normalize(p)).frames + [] == Drain(Normalize(p)).frames;
    } else {
      var c := chunks[0];
      assert p + Concat(chunks) == (p + c) + Concat(chunks[1..]);
      PushResumes(p, c);
      FeedResumes(p + c, chunks[1..]);
      var d, first := Drain(Normalize(p)), PushFrames(Drain(Normalize(p)).rest, c);
      var more := Feed(first.rest, chunks[1..]);
      assert (d.frames + first.frames) + more.frames == d.frames + (first.frames + more.frames);
    }
  }

  /** However a stream without `\r\r\n` is cut, the frames and the final buffer
      are those of one push of the whole stream. */
  lemma ChunkIndependent(chunks: seq<string>)
    requires !Occurs(CRCRLF, Concat(chunks))
    ensures Feed("", chunks) == PushFrames("", Concat(chunks))
  {
    hide Drain, Normalize, Occurs;
    assert "" + Concat(chunks) == Concat(chunks);
    FeedResumes("", chunks);
    NormalizeNothing();
    DrainNothing("");
  }

  // ---------------------------------- the converse: a stray CR makes cuts matter

  /** The characters that a drained buffer accounts for. */
  function Size(d: Drained): nat { FramesSize(d.frames) + |d.rest| }

  function FramesSize(frames: seq<string>): nat {
    if frames == [] then 0 else |frames[0]| + 2 + FramesSize(frames[1..])
  }

  lemma {:induction false} FramesSizeConcat(a: seq<string>, b: seq<string>)
    ensures FramesSize(a + b) == FramesSize(a) + FramesSize(b)
  {
    if a == [] {
      assert a + b == b;
    } else {
      assert (a + b)[1..] == a[1..] + b;
      FramesSizeConcat(a[1..], b);
    }
  }

  lemma {:induction false} DrainSize(s: string)
    ensures Size(Drain(s)) == |s|
    decreases |s|
  {
    hide Separator;
    var i := Separator(s);
    if i != |s| {
      DrainSize(s[i + 2..]);
      assert ([s[..i]] + Drain(s[i + 2..]).frames)[1..] == Drain(s[i + 2..]).frames;
    }
  }

  /** A buffer that ends in CRLF keeps it: no separator can end there. */
  lemma {:induction false} RestEndsInCrLf(s: string)
    requires |s| >= 2 && s[|s| - 2..] == CRLF
    ensures |Drain(s).rest| >= 2 && Drain(s).rest[|Drain(s).rest| - 2..] == CRLF
    decreases |s|
  {
    hide Separator;
    var i := Separator(s);
    assert s[|s| - 2] == s[|s| - 2..][0] == '\r' && s[|s| - 1] == s[|s| - 2..][1] == '\n';
    if i != |s| {
      var t := s[i + 2..];
      assert i + 2 <= |s| - 2;
      assert t[|t| - 2..] == s[|s| - 2..];
      RestEndsInCrLf(t);
    }
  }

  lemma NormalizeOfCrCrLf(a: string)
    ensures Normalize(a + CRCRLF) == Normalize(a) + CRLF
  {
    hide Normalize;
    NormalizeConcat(a, CRCRLF);
    NormalizeCrCrLf();
  }

  lemma NormalizeCrCrLf()
    ensures Normalize(CRCRLF) == CRLF
  {
    assert CRCRLF[1..] == CRLF && CRLF[2..] == "";
  }

  /** Cutting right after a `\r\r\n` loses the second carriage return. */
  lemma CutLosesText(a: string, b: string)
    ensures Size(Feed("", [a + CRCRLF, b])) < Size(PushFrames("", a + CRCRLF + b))
  {
    hide Drain, Normalize, Size, Occurs;
    var p := a + CRCRLF;
    var first := PushFrames("", p);
    var second := PushFrames(first.rest, b);
    assert "" + p == p && "" + (p + b) == p + b;
    TwoPushes(p, b);
    NormalizeOfCrCrLf(a);
    assert Normalize(p)[|Normalize(p)| - 2..] == CRLF;
    RestEndsInCrLf(Normalize(p));
    DrainSize(Normalize(p));
    DrainSize(Normalize(first.rest + b));
    DrainSize(Normalize(p + b));
    SizeOf(first);
    SizeOf(second);
    FramesSizeConcat(first.frames, second.frames);
    SizeOf(Drained(first.frames + second.frames, second.rest));
    NormalizeConcat(p, b);
    var r := first.rest;
    assert r[|r| - 1] == r[|r| - 2..][1] == '\n';
    NormalizeConcat(r, b);
    assert CRLF <= r[|r| - 2..];
    OccursAt(CRLF, r, |r| - 2);
    NormalizeShrinks(r);
  }

  lemma SizeOf(d: Drained)
    ensures Size(d) == FramesSize(d.frames) + |d.rest|
  {}

  lemma TwoPushes(p: string, b: string)
    ensures var first := PushFrames("", p); var second := PushFrames(first.rest, b);
            Feed("", [p, b]) == Drained(first.frames + second.frames, second.rest)
  {
    hide PushFrames;
    var first := PushFrames("", p);
    var second := PushFrames(first.rest, b);
    assert [p, b][1..] == [b] && [b][1..] == [];
    assert Feed(second.rest, []) == Drained([], second.rest);
    assert second.frames + [] == second.frames;
    assert Feed(first.rest, [b]) == second;
  }

  /** A stream is parsed the same however it is cut exactly when it contains no
      `\r\r\n`. */
  lemma ChunkIndependentExactly(stream: string)
    ensures (forall chunks: seq<string> :: Concat(chunks) == stream ==>
              Feed("", chunks) == PushFrames("", stream))
            <==> !Occurs(CRCRLF, stream)
  {
    hide Drain, Normalize, Occurs, Feed, PushFrames;
    if !Occurs(CRCRLF, stream) {
      forall chunks: seq<string> | Concat(chunks) == stream
        ensures Feed("", chunks) == PushFrames("", stream)
      {
        ChunkIndependent(chunks);
      }
    } else {
      var i := OccurrenceOf(CRCRLF, stream);
      var a, b := stream[..i], stream[i + 3..];
      assert stream[i..][..3] == CRCRLF;
      assert stream == a + CRCRLF + b;
      var chunks := [a + CRCRLF, b];
      assert Concat(chunks) == stream by {
        assert chunks[1..] == [b] && [b][1..] == [];
        assert Concat([b]) == b + "" == b;
      }
      CutLosesText(a, b);
    }
  }

  // ------------------------------------------------------ the server's writer

  /** What the events route writes on the response: an event with JSON data, or
      the periodic keep-alive comment. */
  datatype Write = Sent(eventType: string, data: Json) | KeepAlive

  function FrameText(eventType: string, data: string): string {
    "event: " + eventType + "\ndata: " + data
  }

  function Written(w: Write): string {
    match w
    case Sent(t, data) => FrameText(t, Stringify(data)) + "\n\n"
    case KeepAlive => ": keep-alive\n\n"
  }

  function StreamOf(ws: seq<Write>): string {
    if ws == [] then "" else Written(ws[0]) + StreamOf(ws[1..])
  }

  /** The events a client should see. */
  function Expected(ws: seq<Write>): seq<Event> {
    if ws == [] then []
    else (match ws[0] case Sent(t, data) => [Event(t, Stringify(data))] case KeepAlive => [])
         + Expected(ws[1..])
  }

  /** JSON text has no control characters: they are all escaped. */
  ghost predicate Visible(s: string) { forall i :: 0 <= i < |s| ==> s[i] >= ' ' }

  lemma VisibleConcat(a: string, b: string)
    requires Visible(a) && Visible(b)
    ensures Visible(a + b)
  {}

  lemma {:induction false} EscapeVisible(s: string)
    ensures Visible(Escape(s))
  {
    if s != "" {
      EscapeVisible(s[1..]);
      VisibleConcat(EscapeChar(s[0]), Escape(s[1..]));
    }
  }

  lemma QuotedVisible(s: string)
    ensures Visible(Quoted(s))
  {
    hide Escape;
    EscapeVisible(s);
  }

  lemma {:induction false} StringifyVisible(v: Json)
    ensures Visible(Stringify(v))
    decreases v, 1
  {
    hide Quoted, ItemsText, FieldsText, IsNumeral;
    match v {
      case Real(literal) => if IsNumeral(literal) { NumeralChars(literal); }
      case Str(s) => QuotedVisible(s);
      case Arr(items) => ItemsVisible(items, true); VisibleConcat("[", ItemsText(items, true));
      case Obj(fields) => FieldsVisible(fields, true); VisibleConcat("{", FieldsText(fields, true));
      case _ =>
    }
  }

  lemma {:induction false} ItemsVisible(items: seq<Json>, first: bool)
    ensures Visible(ItemsText(items, first))
    decreases items, 0
  {
    hide Stringify;
    if items != [] {
      StringifyVisible(items[0]);
      ItemsVisible(items[1..], false);
    }
  }

  lemma {:induction false} FieldsVisible(fs: seq<Field>, first: bool)
    ensures Visible(FieldsText(fs, first))
    decreases fs, 0
  {
    hide Stringify, Quoted;
    if fs != [] {
      StringifyVisible(fs[0].value);
      QuotedVisible(fs[0].key);
      FieldsVisible(fs[1..], if fs[0].value.Undefined? then first else false);
    }
  }

  // ------------------------------------------------- frames read back as sent

  lemma {:induction false} SplitLfFirst(l: string, rest: string)
    requires OneLine(l)
    ensures SplitLf(l + "\n" + rest) == [l] + SplitLf(rest)
  {
    var s := l + "\n" + rest;
    assert s[..|l|] == l && s[|l| + 1..] == rest;
    IndexOfIs(s, '\n', |l|);
  }

  lemma SplitLfLast(l: string)
    requires OneLine(l)
    ensures SplitLf(l) == [l]
  {
    NoIndex(l, '\n');
  }

  lemma {:induction false} NoIndex(s: string, c: char)
    requires c !in s
    ensures IndexOf(s, c) == |s|
  {
    if s != "" { NoIndex(s[1..], c); }
  }

  lemma NamedLine(name: string, value: string)
    requires ':' !in name
    ensures var line := name + ": " + value;
            FieldName(line) == name && FieldValue(line) == value
  {
    var line := name + ": " + value;
    assert line[..|name|] == name && line[|name|] == ':';
    IndexOfIs(line, ':', |name|);
    assert line[|name| + 1..] == " " + value;
    assert (" " + value)[1..] == value;
  }

  lemma FrameReads(t: string, data: string)
    requires OneLine(t) && OneLine(data)
    ensures ParseFrame(FrameText(t, data)) == Some(Event(t, data))
  {
    hide SplitLf, FieldName, FieldValue;
    var a, b := "event: " + t, "data: " + data;
    assert FrameText(t, data) == a + "\n" + b;
    SplitLfFirst(a, b);
    SplitLfLast(b);
    NamedLine("event", t);
    NamedLine("data", data);
    assert "event" + ": " + t == a && "data" + ": " + data == b;
    assert a[0] == 'e' && b[0] == 'd';
    var lines: seq<string> := [a, b];
    assert [a] + [b] == lines && lines[1..] == [b] && lines[2..] == [] && lines[1..][1..] == lines[2..];
    var f1, f2 := Frame(t, [], true), Frame(t, [data], true);
    assert ReadLine(EMPTY_FRAME, a) == f1;
    assert ReadLine(f1, b) == f2;
    assert ReadLines(EMPTY_FRAME, lines) == ReadLines(f1, lines[1..]) == ReadLines(f2, lines[2..]) == f2;
    assert JoinLines([data]) == data;
  }

  lemma KeepAliveReads()
    ensures ParseFrame(": keep-alive") == None
  {
    hide SplitLf;
    SplitLfLast(": keep-alive");
    assert [": keep-alive"][1..] == [];
  }

  lemma {:induction false} SeparatorAfter(f: string, rest: string)
    requires f != "" && f[|f| - 1] != '\n' && Separator(f) == |f|
    ensures Separator(f + "\n\n" + rest) == |f|
  {
    var s := f + "\n\n" + rest;
    if |f| == 1 {
      assert s[0] == f[0] && s[1..] == "\n\n" + rest;
    } else {
      assert s[0] == f[0] && s[1] == f[1];
      assert s[1..] == f[1..] + "\n\n" + rest;
      SeparatorAfter(f[1..], rest);
    }
  }

  lemma {:induction false} OneLineHasNoSeparator(s: string)
    requires OneLine(s)
    ensures Separator(s) == |s|
  {
    if s != "" {
      assert s[0] in s;
      OneLineHasNoSeparator(s[1..]);
    }
  }

  lemma {:induction false} NoSeparatorAcross(a: string, b: string)
    requires OneLine(a) && OneLine(b) && b != ""
    ensures Separator(a + "\n" + b) == |a| + 1 + |b|
  {
    var s := a + "\n" + b;
    if a == "" {
      assert s[0] == '\n' && s[1] == b[0] && b[0] in b && s[1..] == b;
      OneLineHasNoSeparator(b);
    } else {
      assert s[0] == a[0] && a[0] in a && s[1..] == a[1..] + "\n" + b;
      NoSeparatorAcross(a[1..], b);
    }
  }

  /** A frame's text carries no separator of its own. */
  lemma FrameHasNoSeparator(t: string, data: string)
    requires OneLine(t) && OneLine(data)
    ensures var f := FrameText(t, data);
            f != "" && f[|f| - 1] != '\n' && Separator(f) == |f|
  {
    var a, b := "event: " + t, "data: " + data;
    var f := FrameText(t, data);
    assert f == a + "\n" + b;
    NoSeparatorAcross(a, b);
    assert f[|f| - 1] == b[|b| - 1] && b[|b| - 1] in b;
  }

  ghost predicate SendableAs(w: Write) { w.Sent? ==> OneLine(w.eventType) }

  lemma VisibleIsOneLine(s: string)
    requires Visible(s)
    ensures OneLine(s) && WholeLine(s) && '\r' !in s
  {}

  /** What the parser makes of one write at the head of a normalized buffer. */
  lemma WriteDrains(w: Write, rest: string)
    requires SendableAs(w)
    ensures Drain(Written(w) + rest).rest == Drain(rest).rest
    ensures EventsOf(Drain(Written(w) + rest).frames) == Expected([w]) + EventsOf(Drain(rest).frames)
  {
    hide Drain, Separator, ParseFrame, Stringify, FrameText;
    var f := if w.Sent? then FrameText(w.eventType, Stringify(w.data)) else ": keep-alive";
    if w.Sent? {
      StringifyVisible(w.data);
      VisibleIsOneLine(Stringify(w.data));
      FrameHasNoSeparator(w.eventType, Stringify(w.data));
      FrameReads(w.eventType, Stringify(w.data));
    } else {
      OneLineHasNoSeparator(f);
      KeepAliveReads();
      assert ": keep-alive" + "\n\n" == ": keep-alive\n\n";
    }
    var s := f + "\n\n" + rest;
    assert Written(w) + rest == s;
    SeparatorAfter(f, rest);
    DrainAt(s);
    assert s[..|f|] == f && s[|f| + 2..] == rest;
    EventsConcat([f], Drain(rest).frames);
    OneEvent(f);
    assert [w][1..] == [];
    assert Expected([w]) == (match w case Sent(t, data) => [Event(t, Stringify(data))] case KeepAlive => []) + [];
  }

  lemma {:induction false} StreamDrains(ws: seq<Write>)
    requires forall i :: 0 <= i < |ws| ==> SendableAs(ws[i])
    ensures Drain(StreamOf(ws)).rest == "" && EventsOf(Drain(StreamOf(ws)).frames) == Expected(ws)
  {
    hide Drain, SendableAs, Written;
    if ws == [] {
      DrainNothing("");
    } else {
      StreamDrains(ws[1..]);
      WriteDrains(ws[0], StreamOf(ws[1..]));
      ExpectedHead(ws);
    }
  }

  lemma ExpectedHead(ws: seq<Write>)
    requires ws != []
    ensures Expected(ws) == Expected([ws[0]]) + Expected(ws[1..])
  {
    hide Stringify;
    assert [ws[0]][1..] == [];
  }

  // ------------------------------------------------------ carriage returns

  /** The type as it looks after normalization: a final `\r` merges with the line
      feed behind it. */
  function Received(w: Write): Write {
    match w
    case Sent(t, data) => Sent(DropCr(t), data)
    case KeepAlive => KeepAlive
  }

  function ReceivedAll(ws: seq<Write>): (r: seq<Write>)
    ensures |r| == |ws| && forall i :: 0 <= i < |ws| ==> r[i] == Received(ws[i])
  {
    if ws == [] then [] else [Received(ws[0])] + ReceivedAll(ws[1..])
  }

  lemma {:induction false} OneLineNormal(s: string)
    requires OneLine(s)
    ensures Normalize(s) == s
  {
    if |s| >= 2 {
      assert s[1] in s;
      OneLineNormal(s[1..]);
      assert s == [s[0]] + s[1..];
    }
  }

  lemma NormalizeLine(l: string)
    requires OneLine(l)
    ensures Normalize(l + "\n") == DropCr(l) + "\n"
  {
    hide Normalize;
    OneLineNormal(DropCr(l));
    if EndsInCr(l) {
      var init := l[..|l| - 1];
      EndAndStart(l, "\n");
      assert "\r" + "\n" == CRLF + "";
      NormalizeCrLfCons("");
      NormalizeNothing();
    } else {
      NormalizeConcat(l, "\n");
      OneLineNormal(l);
      NormalizeCons('\n', "");
      NormalizeNothing();
      assert ['\n'] + "" == "\n";
    }
  }

  lemma WrittenNormal(w: Write)
    requires SendableAs(w)
    ensures Normalize(Written(w)) == Written(Received(w)) && !EndsInCr(Written(w))
  {
    hide Normalize, Stringify;
    if w.Sent? {
      var d := Stringify(w.data);
      StringifyVisible(w.data);
      VisibleIsOneLine(d);
      var a, b := "event: " + w.eventType, "data: " + d;
      assert DropCr(a) == "event: " + DropCr(w.eventType);
      assert '\r' !in b;
      PairNormal(a, b);
      FrameSplits(w.eventType, d);
      FrameSplits(DropCr(w.eventType), d);
    } else {
      KeepAliveNormal();
    }
  }

  lemma FrameSplits(t: string, d: string)
    ensures FrameText(t, d) + "\n\n" == ("event: " + t + "\n") + (("data: " + d + "\n") + "\n")
  {}

  lemma PairNormal(a: string, b: string)
    requires OneLine(a) && OneLine(b) && '\r' !in b
    ensures Normalize((a + "\n") + ((b + "\n") + "\n")) == (DropCr(a) + "\n") + ((b + "\n") + "\n")
  {
    hide Normalize;
    assert DropCr(b) == b && DropCr("") == "";
    NormalizeLine(a);
    NormalizeLine(b);
    NormalizeLine("");
    assert "" + "\n" == "\n";
    NormalizeConcat(a + "\n", (b + "\n") + "\n");
    NormalizeConcat(b + "\n", "\n");
  }

  lemma KeepAliveNormal()
    ensures Normalize(": keep-alive\n\n") == ": keep-alive\n\n"
  {
    hide Normalize;
    var k := ": keep-alive";
    NormalizeLine(k);
    NormalizeLine("");
    assert ": keep-alive\n\n" == (k + "\n") + "\n" && "" + "\n" == "\n";
    assert DropCr(k) == k && DropCr("") == "";
    NormalizeConcat(k + "\n", "\n");
  }

  lemma {:induction false} StreamNormal(ws: seq<Write>)
    requires forall i :: 0 <= i < |ws| ==> SendableAs(ws[i])
    ensures Normalize(StreamOf(ws)) == StreamOf(ReceivedAll(ws))
  {
    hide Normalize, Written, Received, SendableAs;
    if ws == [] {
      NormalizeNothing();
    } else {
      WrittenNormal(ws[0]);
      NormalizeConcat(Written(ws[0]), StreamOf(ws[1..]));
      StreamNormal(ws[1..]);
      assert ReceivedAll(ws)[1..] == ReceivedAll(ws[1..]);
    }
  }

  lemma {:induction false} ExpectedSame(ws: seq<Write>)
    ensures Expected(ReceivedAll(ws)) == Expected(ws)
            <==> forall i :: 0 <= i < |ws| ==> (ws[i].Sent? ==> !EndsInCr(ws[i].eventType))
  {
    hide Stringify;
    if ws != [] {
      ExpectedSame(ws[1..]);
      assert ReceivedAll(ws)[1..] == ReceivedAll(ws[1..]);
      var a, b := Expected(ReceivedAll(ws)), Expected(ws);
      if ws[0].Sent? {
        var t := ws[0].eventType;
        assert a[0].event == DropCr(t) && b[0].event == t;
        assert a[1..] == Expected(ReceivedAll(ws[1..])) && b[1..] == Expected(ws[1..]);
        assert a == b <==> DropCr(t) == t && a[1..] == b[1..];
      } else {
        assert a == Expected(ReceivedAll(ws[1..])) && b == Expected(ws[1..]);
      }
      assert forall i :: 0 < i < |ws| ==> ws[i] == ws[1..][i - 1];
    }
  }

  lemma {:induction false} EventNames(f: Frame, lines: seq<string>)
    requires OneLine(f.event) && forall l :: l in lines ==> OneLine(l)
    ensures OneLine(ReadLines(f, lines).event)
    decreases |lines|
  {
    if lines != [] {
      assert lines[0] in lines;
      assert OneLine(FieldValue(lines[0]));
      EventNames(ReadLine(f, lines[0]), lines[1..]);
    }
  }

  lemma {:induction false} ParsedNamesAreLines(frames: seq<string>)
    ensures forall e :: e in EventsOf(frames) ==> OneLine(e.event)
  {
    hide SplitLf, ReadLines;
    if frames != [] {
      EventNames(EMPTY_FRAME, SplitLf(frames[0]));
      ParsedNamesAreLines(frames[1..]);
    }
  }

  lemma {:induction false} ExpectedNames(ws: seq<Write>, i: nat)
    requires i < |ws| && ws[i].Sent?
    ensures exists e :: e in Expected(ws) && e.event == ws[i].eventType
  {
    hide Stringify;
    if i == 0 {
      assert Expected(ws)[0].event == ws[0].eventType;
    } else {
      ExpectedNames(ws[1..], i - 1);
      var e :| e in Expected(ws[1..]) && e.event == ws[i].eventType;
      assert e in Expected(ws);
    }
  }

  /** One push of everything the server wrote gives exactly the events it sent if
      and only if every type is one line that does not end in a carriage return. */
  lemma StreamReadsExactly(ws: seq<Write>)
    ensures EventsOf(PushFrames("", StreamOf(ws)).frames) == Expected(ws)
            <==> forall i :: 0 <= i < |ws| && ws[i].Sent? ==> WholeLine(ws[i].eventType)
  {
    hide Drain, Normalize, StreamOf, Expected, EventsOf;
    assert "" + StreamOf(ws) == StreamOf(ws);
    if bad :| 0 <= bad < |ws| && ws[bad].Sent? && !OneLine(ws[bad].eventType) {
      ParsedNamesAreLines(PushFrames("", StreamOf(ws)).frames);
      ExpectedNames(ws, bad);
    } else {
      StreamNormal(ws);
      forall i | 0 <= i < |ws| ensures SendableAs(ReceivedAll(ws)[i]) { ReceivedSendable(ws[i]); }
      StreamDrains(ReceivedAll(ws));
      ExpectedSame(ws);
    }
  }

  lemma ReceivedSendable(w: Write)
    requires SendableAs(w)
    ensures SendableAs(Received(w))
  {}

  /** Any server-written sequence, interleaved with keep-alives and cut into
      arbitrary chunks, is parsed back to exactly the events sent, and nothing is
      left in the buffer. */
  lemma StreamRoundTrip(ws: seq<Write>, chunks: seq<string>)
    requires forall i :: 0 <= i < |ws| && ws[i].Sent? ==> WholeLine(ws[i].eventType)
    requires Concat(chunks) == StreamOf(ws)
    ensures EventsOf(Feed("", chunks).frames) == Expected(ws) && Feed("", chunks).rest == ""
  {
    hide Drain, Normalize, StreamOf, Expected, EventsOf, Occurs, Feed;
    var stream := StreamOf(ws);
    assert "" + stream == stream;
    StreamNormal(ws);
    assert ReceivedAll(ws) == ws;
    if Occurs(CRCRLF, stream) {
      CrCrLfHasCrLf(stream);
      NormalizeShrinks(stream);
    }
    ChunkIndependent(chunks);
    StreamDrains(ws);
  }

  lemma CrCrLfHasCrLf(s: string)
    requires Occurs(CRCRLF, s)
    ensures Occurs(CRLF, s)
  {
    var i := OccurrenceOf(CRCRLF, s);
    assert s[i..][1..] == s[i + 1..] && CRCRLF[1..] == CRLF;
    assert CRLF <= s[i + 1..];
    OccursAt(CRLF, s, i + 1);
  }

  /** The parser object, fed chunk by chunk. */
  method ReadStream(chunks: seq<string>) returns (events: seq<Event>)
    ensures events == EventsOf(Feed("", chunks).frames)
  {
    hide PushFrames, EventsOf, Feed;
    var parser := new SseParser();
    events := [];
    FeedNothing("");
    EventsOfNothing();
    for i := 0 to |chunks|
      invariant events == EventsOf(Feed("", chunks[..i]).frames)
      invariant parser.buffer == Feed("", chunks[..i]).rest
    {
      assert chunks[..i + 1] == chunks[..i] + [chunks[i]];
      FeedSnoc("", chunks[..i], chunks[i]);
      var more := parser.Push(chunks[i]);
      EventsConcat(Feed("", chunks[..i]).frames, PushFrames(Feed("", chunks[..i]).rest, chunks[i]).frames);
      events := events + more;
    }
    assert chunks[..|chunks|] == chunks;
  }

  lemma EventsOfNothing()
    ensures EventsOf([]) == []
  {}

  lemma FeedNothing(buffer: string)
    ensures Feed(buffer, []) == Drained([], buffer)
  {}

  lemma {:induction false} FeedSnoc(buffer: string, chunks: seq<string>, c: string)
    ensures var d := Feed(buffer, chunks); var more := PushFrames(d.rest, c);
            Feed(buffer, chunks + [c]) == Drained(d.frames + more.frames, more.rest)
    decreases |chunks|
  {
    hide PushFrames;
    if chunks == [] {
      assert chunks + [c] == [c] && [c][1..] == [];
      var more := PushFrames(buffer, c);
      assert more.frames + [] == more.frames && [] + more.frames == more.frames;
      FeedNothing(more.rest);
    } else {
      assert (chunks + [c])[1..] == chunks[1..] + [c];
      var first := PushFrames(buffer, chunks[0]);
      FeedSnoc(first.rest, chunks[1..], c);
      var d := Feed(first.rest, chunks[1..]);
      var more := PushFrames(d.rest, c);
      assert (first.frames + d.frames) + more.frames == first.frames + (d.frames + more.frames);
    }
  }
}
