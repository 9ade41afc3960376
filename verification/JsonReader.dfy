/** Reading JSON. */
module JsonReader {
  // A reader of JSON text after the grammar of RFC 8259, without the white space that
  // the grammar allows around its six structural characters. It does not know how the
  // text was written.

  import opened Options
  import opened Text
  import opened Json
  import opened Numerals
  import opened JsonText

  // -------------------------------------------------------------------- strings

  /** A hexadecimal digit, of either case. */
  function HexValue(c: char): (r: Option<nat>)
    ensures r.Some? ==> r.value < 16
  {
    if '0' <= c <= '9' then Some(c as int - '0' as int)
    else if 'a' <= c <= 'f' then Some(c as int - 'a' as int + 10)
    else if 'A' <= c <= 'F' then Some(c as int - 'A' as int + 10)
    else None
  }

  lemma HexDigitReads(d: nat)
    requires d < 16
    ensures HexValue(HexDigit(d)) == Some(d)
  {}

  /** Four hexadecimal digits. */
  function HexCode(s: string): Option<nat> {
    if |s| < 4 then None
    else
      var a, b, c, d := HexValue(s[0]), HexValue(s[1]), HexValue(s[2]), HexValue(s[3]);
      if a.Some? && b.Some? && c.Some? && d.Some? then
        Some(((a.value * 16 + b.value) * 16 + c.value) * 16 + d.value)
      else None
  }

  /** What stands behind a backslash, but for `u` (section 7). */
  function Escaped(c: char): Option<char> {
    if c == '"' || c == '\\' || c == '/' then Some(c)
    else if c == 'b' then Some(8 as char)
    else if c == 'f' then Some(12 as char)
    else if c == 'n' then Some('\n')
    else if c == 'r' then Some('\r')
    else if c == 't' then Some('\t')
    else None
  }

  predicate IsHigh(u: nat) { 0xD800 <= u < 0xDC00 }

  predicate IsLow(u: nat) { 0xDC00 <= u < 0xE000 }

  /** A character given by its code unit, or by a surrogate pair. */
  function ReadUnicode(s: string): (r: Option<(char, string)>)
    ensures r.Some? ==> |r.value.1| < |s|
  {
    var u := HexCode(s);
    if u == None || IsLow(u.value) then None
    else if !IsHigh(u.value) then
      if u.value < 0x1_0000 then Some((u.value as char, s[4..])) else None
    else if |s| < 10 || s[4] != '\\' || s[5] != 'u' then None
    else
      var v := HexCode(s[6..]);
      if v == None || !IsLow(v.value) then None
      else Some(((0x1_0000 + (u.value - 0xD800) * 0x400 + (v.value - 0xDC00)) as char, s[10..]))
  }

  /** One character of a string. */
  function ReadChar(s: string): (r: Option<(char, string)>)
    ensures r.Some? ==> |r.value.1| < |s|
  {
    if s == "" || s[0] == '"' || s[0] as int < 0x20 then None
    else if s[0] != '\\' then Some((s[0], s[1..]))
    else if |s| < 2 then None
    else if s[1] == 'u' then ReadUnicode(s[2..])
    else if Escaped(s[1]) == None then None
    else Some((Escaped(s[1]).value, s[2..]))
  }

  /** The rest of a string, after its opening quote. */
  function ReadText(s: string): (r: Option<(string, string)>)
    ensures r.Some? ==> |r.value.1| < |s|
    decreases |s|
  {
    if s != "" && s[0] == '"' then Some(("", s[1..]))
    else
      var c := ReadChar(s);
      if c == None then None
      else
        var t := ReadText(c.value.1);
        if t == None then None else Some(([c.value.0] + t.value.0, t.value.1))
  }

  // --------------------------------------------------------------------- values

  /** A number: an integer where it has neither fraction nor exponent. */
  function NumberOf(t: string): Json
    requires NumberEnd(t) == Some(|t|)
  {
    if '.' in t || 'e' in t || 'E' in t then Real(t)
    else
      IntegerDigits(t);
      Int((if t[0] == '-' then -1 else 1) * ParseNat(t[SignEnd(t)..]))
  }

  function ReadNumber(s: string): (r: Option<(Json, string)>)
    ensures r.Some? ==> |r.value.1| < |s|
  {
    var n := NumberEnd(s);
    if n == None then None
    else
      NumberAlone(s);
      Some((NumberOf(s[..n.value]), s[n.value..]))
  }

  function ReadValue(s: string): (r: Option<(Json, string)>)
    ensures r.Some? ==> |r.value.1| < |s|
    decreases |s|, 0
  {
    if "null" <= s then Some((Null, s[4..]))
    else if "true" <= s then Some((Bool(true), s[4..]))
    else if "false" <= s then Some((Bool(false), s[5..]))
    else if s != "" && s[0] == '"' then
      match ReadText(s[1..]) case None => None case Some((t, rest)) => Some((Str(t), rest))
    else if s != "" && s[0] == '[' then
      match ReadArray(s[1..]) case None => None case Some((items, rest)) => Some((Arr(items), rest))
    else if s != "" && s[0] == '{' then
      match ReadObject(s[1..]) case None => None case Some((fields, rest)) => Some((Obj(fields), rest))
    else ReadNumber(s)
  }

  /** An array after its opening bracket. */
  function ReadArray(s: string): (r: Option<(seq<Json>, string)>)
    ensures r.Some? ==> |r.value.1| < |s|
    decreases |s|, 2
  {
    if s != "" && s[0] == ']' then Some(([], s[1..])) else ReadElements(s)
  }

  function ReadElements(s: string): (r: Option<(seq<Json>, string)>)
    ensures r.Some? ==> |r.value.1| < |s|
    decreases |s|, 1
  {
    match ReadValue(s)
    case None => None
    case Some((v, rest)) =>
      if rest == "" then None
      else if rest[0] == ']' then Some(([v], rest[1..]))
      else if rest[0] != ',' then None
      else
        match ReadElements(rest[1..])
        case None => None
        case Some((more, end)) => Some(([v] + more, end))
  }

  /** An object after its opening brace. */
  function ReadObject(s: string): (r: Option<(seq<Field>, string)>)
    ensures r.Some? ==> |r.value.1| < |s|
    decreases |s|, 2
  {
    if s != "" && s[0] == '}' then Some(([], s[1..])) else ReadMembers(s)
  }

  /** A member up to its value: a string and a colon. */
  function ReadKey(s: string): (r: Option<(string, string)>)
    ensures r.Some? ==> |r.value.1| < |s|
  {
    if s == "" || s[0] != '"' then None
    else
      match ReadText(s[1..])
      case None => None
      case Some((key, rest)) => if rest == "" || rest[0] != ':' then None else Some((key, rest[1..]))
  }

  function ReadMembers(s: string): (r: Option<(seq<Field>, string)>)
    ensures r.Some? ==> |r.value.1| < |s|
    decreases |s|, 1
  {
    match ReadKey(s)
    case None => None
    case Some((key, value)) =>
      match ReadValue(value)
      case None => None
      case Some((v, rest)) =>
        if rest == "" then None
        else if rest[0] == '}' then Some(([Field(key, v)], rest[1..]))
        else if rest[0] != ',' then None
        else
          match ReadMembers(rest[1..])
          case None => None
          case Some((more, end)) => Some(([Field(key, v)] + more, end))
  }

  function ReadJson(s: string): Option<Json> {
    match ReadValue(s) case Some((v, rest)) => (if rest == "" then Some(v) else None) case None => None
  }

  // --------------------------------------------- what was written is read back

  lemma ShortEscapeReads(e: char, rest: string)
    requires Escaped(e).Some?
    ensures ReadChar("\\" + [e] + rest) == Some((Escaped(e).value, rest))
  {
    var s := "\\" + [e] + rest;
    assert s[0] == '\\' && s[1] == e && s[2..] == rest;
  }

  lemma LongEscapeReads(u: nat, rest: string)
    requires u < 0x20
    ensures ReadChar("\\u00" + [HexDigit(u / 16), HexDigit(u % 16)] + rest) == Some((u as char, rest))
  {
    var s := "\\u00" + [HexDigit(u / 16), HexDigit(u % 16)] + rest;
    assert s[0] == '\\' && s[1] == 'u' && s[2] == '0' && s[3] == '0';
    assert s[4] == HexDigit(u / 16) && s[5] == HexDigit(u % 16) && s[6..] == rest;
    var t := s[2..];
    assert t[0] == s[2] && t[1] == s[3] && t[2] == s[4] && t[3] == s[5] && t[4..] == rest;
    HexDigitReads(u / 16);
    HexDigitReads(u % 16);
  }

  /** The text of one character is read as that character. */
  lemma CharReads(c: char, rest: string)
    ensures ReadChar(EscapeChar(c) + rest) == Some((c, rest))
  {
    hide ReadChar;
    if c == '"' || c == '\\' {
      ShortEscapeReads(c, rest);
      assert EscapeChar(c) == "\\" + [c];
    } else if c as int == 8 {
      ShortEscapeReads('b', rest);
      assert c == 8 as char && EscapeChar(c) == "\\" + ['b'];
    } else if c as int == 12 {
      ShortEscapeReads('f', rest);
      assert c == 12 as char && EscapeChar(c) == "\\" + ['f'];
    } else if c == '\n' {
      ShortEscapeReads('n', rest);
      assert EscapeChar(c) == "\\" + ['n'];
    } else if c == '\r' {
      ShortEscapeReads('r', rest);
      assert EscapeChar(c) == "\\" + ['r'];
    } else if c == '\t' {
      ShortEscapeReads('t', rest);
      assert EscapeChar(c) == "\\" + ['t'];
    } else if c as int < 0x20 {
      LongEscapeReads(c as int, rest);
    } else {
      BareCharReads(c, rest);
    }
  }

  lemma BareCharReads(c: char, rest: string)
    requires c != '"' && c != '\\' && c as int >= 0x20
    ensures ReadChar([c] + rest) == Some((c, rest))
  {
    assert ([c] + rest)[1..] == rest;
  }

  lemma {:induction false} TextReads(s: string, rest: string)
    ensures ReadText(Escape(s) + "\"" + rest) == Some((s, rest))
  {
    hide EscapeChar, ReadChar;
    var t := Escape(s) + "\"" + rest;
    if s == "" {
      assert t[0] == '"' && t[1..] == rest;
    } else {
      var tail := Escape(s[1..]) + "\"" + rest;
      assert t == EscapeChar(s[0]) + tail && t[0] == EscapeChar(s[0])[0];
      CharReads(s[0], tail);
      TextReads(s[1..], rest);
      assert s == [s[0]] + s[1..];
    }
  }

  lemma QuotedStarts(s: string, rest: string)
    ensures var t := Quoted(s) + rest; t != "" && t[0] == '"' && t[1..] == Escape(s) + "\"" + rest
  {
    hide Escape;
  }

  /** What may stand behind a value. */
  predicate Delimited(s: string) { s == "" || s[0] == ',' || s[0] == ']' || s[0] == '}' }

  lemma NumberReads(v: Json, rest: string)
    requires Plain(v) && (v.Int? || v.Real?) && Delimited(rest)
    ensures ReadNumber(Stringify(v) + rest) == Some((v, rest))
  {
    hide NumberEnd, IntText, ParseNat;
    var t := Stringify(v);
    if v.Int? { IntegerIsNumber(v.n); }
    NumberStops(t, rest);
    assert (t + rest)[..|t|] == t && (t + rest)[|t|..] == rest;
    if v.Int? { IntegerOf(v.n); } else { RealOf(v.literal); }
  }

  lemma IntegerOf(n: int)
    requires NumberEnd(IntText(n)) == Some(|IntText(n)|)
    ensures NumberOf(IntText(n)) == Int(n)
  {
    hide NumberEnd, ParseNat;
    var m := if n < 0 then -n else n;
    ParseOfNatText(m);
    assert forall k :: 0 <= k < |IntText(n)| ==> IsDigit(IntText(n)[k]) || IntText(n)[k] == '-';
    assert n < 0 ==> IntText(n)[1..] == NatText(m);
    assert n >= 0 ==> IntText(n)[0..] == NatText(m) && IsDigit(IntText(n)[0]);
  }

  lemma RealOf(t: string)
    requires IsNumeral(t)
    ensures NumberOf(t) == Real(t)
  {
    hide NumberEnd;
  }

  /** A number is none of the other kinds of value. */
  lemma NumberStarts(v: Json, rest: string)
    requires Plain(v) && (v.Int? || v.Real?)
    ensures ReadValue(Stringify(v) + rest) == ReadNumber(Stringify(v) + rest)
  {
    hide NumberEnd, ReadNumber, IntText, ReadText, ReadArray, ReadObject;
    var s := Stringify(v) + rest;
    if v.Int? { IntegerIsNumber(v.n); }
    NumberChars(Stringify(v));
    assert s[0] == Stringify(v)[0];
  }

  lemma WordStarts(s: string)
    ensures "null" <= s ==> s[0] == 'n'
    ensures "true" <= s ==> s[0] == 't'
    ensures "false" <= s ==> s[0] == 'f'
  {}

  lemma WordsRead(rest: string)
    ensures ReadValue("null" + rest) == Some((Null, rest))
    ensures ReadValue("true" + rest) == Some((Bool(true), rest))
    ensures ReadValue("false" + rest) == Some((Bool(false), rest))
  {
    hide ReadText, ReadArray, ReadObject, ReadNumber;
    var n, t, f := "null" + rest, "true" + rest, "false" + rest;
    assert "null" <= n && n[4..] == rest && "true" <= t && t[4..] == rest && "false" <= f && f[5..] == rest;
    assert n[0] == 'n' && t[0] == 't' && f[0] == 'f';
    WordStarts(t);
    WordStarts(f);
  }

  lemma StringReads(t: string, rest: string)
    ensures ReadValue(Quoted(t) + rest) == Some((Str(t), rest))
  {
    hide ReadText, ReadArray, ReadObject, ReadNumber, Escape, Quoted;
    QuotedStarts(t, rest);
    TextReads(t, rest);
    WordStarts(Quoted(t) + rest);
  }

  /** For every value: its text, with whatever may stand behind it, is read as that
      value, and no further. */
  lemma {:induction false} ValueReads(v: Json, rest: string)
    requires Plain(v) && Delimited(rest)
    ensures ReadValue(Stringify(v) + rest) == Some((v, rest))
    decreases v, 1
  {
    hide ReadValue, ReadNumber, ItemsText, FieldsText, IntText, Quoted, Plain;
    PlainKinds(v);
    PlainItems(v);
    match v {
      case Null => WordsRead(rest);
      case Bool(b) => WordsRead(rest);
      case Int(n) => NumberReads(v, rest); NumberStarts(v, rest);
      case Real(literal) => NumberReads(v, rest); NumberStarts(v, rest);
      case Str(s) => StringReads(s, rest);
      case Arr(items) => ArrayReads(items, rest); BracketReads(ItemsText(items, true) + rest);
      case Obj(fields) => ObjectReads(fields, rest); BraceReads(FieldsText(fields, true) + rest);
      case Undefined =>
    }
    assert "[" + ItemsText(if v.Arr? then v.items else [], true) + rest
      == "[" + (ItemsText(if v.Arr? then v.items else [], true) + rest);
    assert "{" + FieldsText(if v.Obj? then v.fields else [], true) + rest
      == "{" + (FieldsText(if v.Obj? then v.fields else [], true) + rest);
  }

  lemma BracketReads(s: string)
    ensures ReadValue("[" + s)
            == match ReadArray(s) case None => None case Some((items, rest)) => Some((Arr(items), rest))
  {
    hide ReadText, ReadArray, ReadObject, ReadNumber;
    assert ("[" + s)[1..] == s;
    WordStarts("[" + s);
  }

  lemma BraceReads(s: string)
    ensures ReadValue("{" + s)
            == match ReadObject(s) case None => None case Some((fields, rest)) => Some((Obj(fields), rest))
  {
    hide ReadText, ReadArray, ReadObject, ReadNumber;
    assert ("{" + s)[1..] == s;
    WordStarts("{" + s);
  }

  lemma StringifyStarts(v: Json)
    requires Plain(v)
    ensures Stringify(v) != "" && Stringify(v)[0] != ']' && Stringify(v)[0] != '}'
  {
    hide ItemsText, FieldsText, Escape, NumberEnd;
    if v.Int? { IntegerIsNumber(v.n); }
    if v.Int? || v.Real? { NumberChars(Stringify(v)); }
  }

  lemma {:induction false} ArrayReads(items: seq<Json>, rest: string)
    requires (forall i :: 0 <= i < |items| ==> Plain(items[i])) && Delimited(rest)
    ensures ReadArray(ItemsText(items, true) + rest) == Some((items, rest))
    decreases items, 1
  {
    hide ReadElements, Stringify, Plain;
    var s := ItemsText(items, true) + rest;
    if items == [] {
      assert s[0] == ']' && s[1..] == rest;
    } else {
      StringifyStarts(items[0]);
      assert s == Stringify(items[0]) + ItemsText(items[1..], false) + rest && s[0] == Stringify(items[0])[0];
      ElementsRead(items, rest);
    }
  }

  lemma ItemsStart(items: seq<Json>, rest: string)
    requires items != []
    ensures ItemsText(items, true) + rest == Stringify(items[0]) + ItemsText(items[1..], false) + rest
    ensures ItemsText(items, false) + rest == "," + (Stringify(items[0]) + ItemsText(items[1..], false) + rest)
    ensures Stringify(items[0]) + ItemsText(items[1..], false) + rest
            == Stringify(items[0]) + (ItemsText(items[1..], false) + rest)
  {
    hide Stringify;
    assert "" + Stringify(items[0]) == Stringify(items[0]);
  }

  lemma ItemsEnd(rest: string)
    ensures var s := ItemsText([], false) + rest; s != "" && s[0] == ']' && s[1..] == rest && Delimited(s)
    ensures var s := ItemsText([], true) + rest; s[0] == ']' && s[1..] == rest
  {}

  /** One element, and what is made of what follows it. */
  lemma ElementStep(s: string, v: Json, tail: string, rest: string, more: seq<Json>)
    requires ReadValue(s) == Some((v, tail))
    requires if more == [] then tail != "" && tail[0] == ']' && tail[1..] == rest
             else tail != "" && tail[0] == ',' && ReadElements(tail[1..]) == Some((more, rest))
    ensures ReadElements(s) == Some(([v] + more, rest))
  {
    hide ReadValue;
    assert [v] + [] == [v];
  }

  lemma {:induction false} ElementsRead(items: seq<Json>, rest: string)
    requires items != [] && (forall i :: 0 <= i < |items| ==> Plain(items[i])) && Delimited(rest)
    ensures ReadElements(Stringify(items[0]) + ItemsText(items[1..], false) + rest) == Some((items, rest))
    decreases items, 0
  {
    hide ReadValue, Stringify, Plain, ItemsText, ReadElements;
    var more := items[1..];
    var tail := ItemsText(more, false) + rest;
    ItemsStart(items, rest);
    ItemsEnd(rest);
    if more != [] {
      ItemsStart(more, rest);
      assert tail[0] == ',' && Delimited(tail)
        && tail[1..] == Stringify(more[0]) + ItemsText(more[1..], false) + rest;
      ElementsRead(more, rest);
    } else {
      assert more == [];
    }
    ValueReads(items[0], tail);
    ElementStep(Stringify(items[0]) + tail, items[0], tail, rest, more);
    assert items == [items[0]] + more;
  }

  lemma {:induction false} ObjectReads(fs: seq<Field>, rest: string)
    requires (forall i :: 0 <= i < |fs| ==> Plain(fs[i].value)) && Delimited(rest)
    ensures ReadObject(FieldsText(fs, true) + rest) == Some((fs, rest))
    decreases fs, 1
  {
    hide ReadMembers, Stringify, Plain, Quoted;
    var s := FieldsText(fs, true) + rest;
    if fs == [] {
      assert s[0] == '}' && s[1..] == rest;
    } else {
      PlainKinds(fs[0].value);
      var tail := ":" + Stringify(fs[0].value) + FieldsText(fs[1..], false) + rest;
      QuotedStarts(fs[0].key, tail);
      FieldsStart(fs, rest);
      assert s == Quoted(fs[0].key) + tail;
      MembersRead(fs, rest);
    }
  }

  lemma FieldsStart(fs: seq<Field>, rest: string)
    requires fs != [] && Plain(fs[0].value)
    ensures FieldsText(fs, true) + rest
            == Quoted(fs[0].key) + ":" + Stringify(fs[0].value) + FieldsText(fs[1..], false) + rest
    ensures FieldsText(fs, false) + rest
            == "," + (Quoted(fs[0].key) + ":" + Stringify(fs[0].value) + FieldsText(fs[1..], false) + rest)
    ensures Quoted(fs[0].key) + ":" + Stringify(fs[0].value) + FieldsText(fs[1..], false) + rest
            == Quoted(fs[0].key) + (":" + Stringify(fs[0].value) + FieldsText(fs[1..], false) + rest)
    ensures Quoted(fs[0].key) + ":" + Stringify(fs[0].value) + FieldsText(fs[1..], false) + rest
            == Quoted(fs[0].key) + ":" + (Stringify(fs[0].value) + (FieldsText(fs[1..], false) + rest))
  {
    hide Quoted, Stringify, Plain;
    PlainKinds(fs[0].value);
    Regroup5(Quoted(fs[0].key), ":", Stringify(fs[0].value), FieldsText(fs[1..], false), rest);
    assert "" + Quoted(fs[0].key) == Quoted(fs[0].key);
  }

  lemma Regroup5(a: string, b: string, c: string, d: string, e: string)
    ensures a + b + c + d + e == a + (b + c + d + e) == a + b + (c + (d + e))
    ensures "," + a + b + c + d + e == "," + (a + b + c + d + e)
  {}

  lemma FieldsEnd(rest: string)
    ensures var s := FieldsText([], false) + rest; s != "" && s[0] == '}' && s[1..] == rest && Delimited(s)
    ensures var s := FieldsText([], true) + rest; s[0] == '}' && s[1..] == rest
  {}

  lemma KeyReads(key: string, rest: string)
    ensures ReadKey(Quoted(key) + ":" + rest) == Some((key, rest))
  {
    hide ReadText, Quoted, Escape;
    QuotedStarts(key, ":" + rest);
    TextReads(key, ":" + rest);
    assert Quoted(key) + ":" + rest == Quoted(key) + (":" + rest);
    assert (":" + rest)[0] == ':' && (":" + rest)[1..] == rest;
  }

  /** One member, and what is made of what follows it. */
  lemma MemberStep(s: string, f: Field, tail: string, rest: string, more: seq<Field>)
    requires ReadKey(s).Some? && ReadKey(s).value.0 == f.key && ReadValue(ReadKey(s).value.1) == Some((f.value, tail))
    requires if more == [] then tail != "" && tail[0] == '}' && tail[1..] == rest
             else tail != "" && tail[0] == ',' && ReadMembers(tail[1..]) == Some((more, rest))
    ensures ReadMembers(s) == Some(([f] + more, rest))
  {
    hide ReadKey, ReadValue;
    assert [f] + [] == [f];
  }

  lemma {:induction false} MembersRead(fs: seq<Field>, rest: string)
    requires fs != [] && (forall i :: 0 <= i < |fs| ==> Plain(fs[i].value)) && Delimited(rest)
    ensures ReadMembers(Quoted(fs[0].key) + ":" + Stringify(fs[0].value) + FieldsText(fs[1..], false) + rest)
            == Some((fs, rest))
    decreases fs, 0
  {
    hide ReadValue, ReadKey, Stringify, Plain, Quoted, FieldsText, ReadMembers;
    var f, more := fs[0], fs[1..];
    var s := Quoted(f.key) + ":" + Stringify(f.value) + FieldsText(more, false) + rest;
    var tail := FieldsText(more, false) + rest;
    FieldsStart(fs, rest);
    KeyReads(f.key, Stringify(f.value) + tail);
    FieldsEnd(rest);
    if more != [] {
      FieldsStart(more, rest);
      var next := Quoted(more[0].key) + ":" + Stringify(more[0].value) + FieldsText(more[1..], false) + rest;
      assert tail[0] == ',' && tail[1..] == next && Delimited(tail);
      MembersRead(more, rest);
    } else {
      assert more == [];
    }
    ValueReads(f.value, tail);
    MemberStep(s, f, tail, rest, more);
    assert fs == [f] + more;
  }

  // --------------------------------------------------------------- main results

  /** For every plain value: its text is JSON without white space, and says that value. */
  lemma StringifyReads(v: Json)
    requires Plain(v)
    ensures ReadJson(Stringify(v)) == Some(v)
  {
    hide ReadValue, Stringify;
    ValueReads(v, "");
    assert Stringify(v) + "" == Stringify(v);
  }

  /** So the text determines the value. */
  lemma StringifyInjective(v: Json, w: Json)
    requires Plain(v) && Plain(w) && Stringify(v) == Stringify(w)
    ensures v == w
  {
    hide ReadJson, Stringify;
    StringifyReads(v);
    StringifyReads(w);
  }

  /** Of all that a string may hold in its place, each character is written in the
      shortest way, with small hexadecimal digits. */
  lemma EscapesAreShortest(c: char, e: string)
    requires ReadChar(e) == Some((c, ""))
    ensures |EscapeChar(c)| <= |e|
    ensures |EscapeChar(c)| > 2 ==> forall k :: 0 <= k < |EscapeChar(c)| ==> !('A' <= EscapeChar(c)[k] <= 'F')
  {
    if |e| >= 2 && e[0] == '\\' && e[1] == 'u' {
      assert |e[2..]| >= 4;
    }
  }
}
