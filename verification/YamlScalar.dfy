/** YAML scalars. */
module YamlScalar {
  // Scalars of the blueprint's YAML subset: how they are quoted, how they are
  // read back, and the quote-aware scan that finds comments and key colons.

  import opened Text
  import opened Json

  predicate IsReserved(c: char) {
    || c == ':' || c == '#' || c == '{' || c == '}' || c == '[' || c == ']' || c == ','
    || c == '&' || c == '*' || c == '!' || c == '|' || c == '>' || c == '\'' || c == '"'
    || c == '%' || c == '@' || c == '`'
  }

  predicate NeedsQuote(s: string) {
    || s == ""
    || (exists i :: 0 <= i < |s| && IsReserved(s[i]))
    || IsSpace(s[0]) || IsSpace(s[|s| - 1])
    || s[0] == '-' || s[0] == '?'
  }

  function LowerAscii(s: string): (r: string)
    ensures |r| == |s|
  {
    seq(|s|, i requires 0 <= i < |s| =>
      if 'A' <= s[i] <= 'Z' then (s[i] as int + 32) as char else s[i])
  }

  predicate BareKeyword(s: string) {
    var l := LowerAscii(s);
    || l == "true" || l == "false" || l == "null" || l == "yes"
    || l == "no" || l == "on" || l == "off" || l == "~"
  }

  predicate LooksNumeric(s: string) {
    s != "" && (IsDigit(s[0]) || s[0] == '.' || s[0] == '+' || s[0] == '-')
  }

  /** `s.replace(/'/g, "''")` */
  function DoubleQuotes(s: string): string {
    if s == "" then ""
    else (if s[0] == '\'' then "''" else [s[0]]) + DoubleQuotes(s[1..])
  }

  /** `s.replace(/''/g, "'")` */
  function UndoubleQuotes(s: string): string {
    if s == "" then ""
    else if |s| >= 2 && s[0] == '\'' && s[1] == '\'' then "'" + UndoubleQuotes(s[2..])
    else [s[0]] + UndoubleQuotes(s[1..])
  }

  /** `s.replace(/\\"/g, '"')` */
  function UnescapeQuotes(s: string): string {
    if s == "" then ""
    else if |s| >= 2 && s[0] == '\\' && s[1] == '"' then "\"" + UnescapeQuotes(s[2..])
    else [s[0]] + UnescapeQuotes(s[1..])
  }

  predicate IsScalar(v: Json) { !v.Arr? && !v.Obj? }

  function FormatText(s: string): string {
    if s == "" then "''"
    else if NeedsQuote(s) || BareKeyword(s) || LooksNumeric(s) then "'" + DoubleQuotes(s) + "'"
    else s
  }

  function FormatScalar(v: Json): string
    requires IsScalar(v)
  {
    match v
    case Undefined => "null"
    case Null => "null"
    case Bool(b) => if b then "true" else "false"
    case Int(n) => IntText(n)
    case Real(literal) => literal
    case Str(s) => FormatText(s)
  }

  // -------------------------------------------------------------- reading

  predicate AllDigits(s: string) { forall i :: 0 <= i < |s| ==> IsDigit(s[i]) }

  function Unsigned(s: string): string {
    if s != "" && (s[0] == '+' || s[0] == '-') then s[1..] else s
  }

  predicate IsIntegerText(s: string) { Unsigned(s) != "" && AllDigits(Unsigned(s)) }

  predicate IsDecimalText(s: string) {
    var u := Unsigned(s);
    var dot := IndexOf(u, '.');
    dot < |u| && AllDigits(u[..dot]) && u[dot + 1..] != "" && AllDigits(u[dot + 1..])
  }

  predicate WrappedIn(s: string, quote: char) {
    |s| >= 2 && s[0] == quote && s[|s| - 1] == quote
  }

  function ParseScalar(raw: string): (v: Json)
    ensures !v.Undefined?
  {
    ReadScalar(Trim(raw))
  }

  function ReadScalar(s: string): (v: Json)
    ensures !v.Undefined?
  {
    if s == "" || s == "~" || s == "null" then Null
    else if s == "true" then Bool(true)
    else if s == "false" then Bool(false)
    else if s == "[]" then Arr([])
    else if s == "{}" then Obj([])
    else if WrappedIn(s, '\'') then Str(UndoubleQuotes(s[1..|s| - 1]))
    else if WrappedIn(s, '"') then Str(UnescapeQuotes(s[1..|s| - 1]))
    else if IsIntegerText(s) then
      var magnitude: int := ParseNat(Unsigned(s));
      Int(if s[0] == '-' then -magnitude else magnitude)
    else if IsDecimalText(s) then Real(s)
    else Str(s)
  }

  /** `String(value)` for what a key can parse to. */
  function KeyString(v: Json): string {
    match v
    case Null => "null"
    case Bool(b) => if b then "true" else "false"
    case Int(n) => IntText(n)
    case Real(literal) => literal
    case Str(s) => s
    case Arr(_) => ""
    case Obj(_) => "[object Object]"
    case Undefined => "undefined"
  }

  function UnquoteKey(key: string): string { KeyString(ParseScalar(key)) }

  // ------------------------------------------------- quote-aware scanning

  datatype Quote = Outside | Single | Double

  function Step(q: Quote, c: char): Quote {
    if c == '\'' && q != Double then (if q == Single then Outside else Single)
    else if c == '"' && q != Single then (if q == Double then Outside else Double)
    else q
  }

  /** The quote state after reading `s` from state `q`. */
  function Scan(s: string, q: Quote): Quote {
    if s == "" then q else Scan(s[1..], Step(q, s[0]))
  }

  /** `c` never occurs outside quotes while `s` is read from state `q`. */
  predicate Free(s: string, q: Quote, c: char) {
    s == "" || (!(q == Outside && s[0] == c) && Free(s[1..], Step(q, s[0]), c))
  }

  lemma {:induction false} ScanConcat(a: string, b: string, q: Quote, c: char)
    ensures Scan(a + b, q) == Scan(b, Scan(a, q))
    ensures Free(a + b, q, c) <==> Free(a, q, c) && Free(b, Scan(a, q), c)
  {
    if a == "" {
      assert a + b == b;
    } else {
      assert (a + b)[1..] == a[1..] + b;
      ScanConcat(a[1..], b, Step(q, a[0]), c);
    }
  }

  /** Text that can stand on either side of a key colon: it is one trimmed line
      and a scan leaves it outside quotes, having met no `#` and no `:` there. */
  ghost predicate Calm(t: string) {
    && Trimmed(t) && OneLine(t)
    && Scan(t, Outside) == Outside && Free(t, Outside, '#') && Free(t, Outside, ':')
  }

  lemma {:induction false} BareScan(t: string, c: char)
    requires forall i :: 0 <= i < |t| ==> t[i] != '\'' && t[i] != '"' && t[i] != c
    ensures Scan(t, Outside) == Outside && Free(t, Outside, c)
  {
    if t != "" { BareScan(t[1..], c); }
  }

  lemma {:induction false} DoubledScan(s: string, c: char)
    requires c != '\''
    ensures Scan(DoubleQuotes(s), Single) == Single && Free(DoubleQuotes(s), Single, c)
  {
    if s != "" {
      DoubledScan(s[1..], c);
      var d := DoubleQuotes(s[1..]);
      if s[0] == '\'' {
        assert ("''" + d)[1..] == "'" + d && ("'" + d)[1..] == d;
      } else {
        assert ([s[0]] + d)[1..] == d;
      }
    }
  }

  lemma {:induction false} UndoubleOfDouble(s: string)
    ensures UndoubleQuotes(DoubleQuotes(s)) == s
    ensures '\n' in DoubleQuotes(s) <==> '\n' in s
  {
    if s != "" {
      UndoubleOfDouble(s[1..]);
      var d := DoubleQuotes(s[1..]);
      if s[0] == '\'' {
        assert ("''" + d)[2..] == d;
      } else {
        assert ([s[0]] + d)[1..] == d;
      }
      assert s == [s[0]] + s[1..];
    }
  }

  lemma TrimOfTrimmed(s: string)
    requires Trimmed(s)
    ensures Trim(s) == s
  {
    TrimOfPadded(0, s);
    assert Spaces(0) + s == s;
  }

  lemma QuotedScan(s: string, c: char)
    requires c != '\''
    ensures Scan("'" + DoubleQuotes(s) + "'", Outside) == Outside
    ensures Free("'" + DoubleQuotes(s) + "'", Outside, c)
  {
    var d := DoubleQuotes(s);
    var t := "'" + d + "'";
    DoubledScan(s, c);
    ScanConcat(d, "'", Single, c);
    assert t[1..] == d + "'";
    assert Scan("'", Single) == Outside && Free("'", Single, c);
  }

  lemma QuotedIsCalm(s: string)
    requires OneLine(s)
    ensures Calm("'" + DoubleQuotes(s) + "'")
  {
    UndoubleOfDouble(s);
    QuotedScan(s, '#');
    QuotedScan(s, ':');
  }

  lemma QuotedReads(s: string)
    ensures ReadScalar("'" + DoubleQuotes(s) + "'") == Str(s)
  {
    var d := DoubleQuotes(s);
    var t := "'" + d + "'";
    UndoubleOfDouble(s);
    assert t[0] == '\'' && t[|t| - 1] == '\'' && t[1..|t| - 1] == d;
    assert t != "~" && t != "null" && t != "true" && t != "false" && t != "[]" && t != "{}";
  }

  lemma BareIsCalm(s: string)
    requires OneLine(s) && !NeedsQuote(s)
    ensures Calm(s)
  {
    assert forall i :: 0 <= i < |s| ==> !IsReserved(s[i]);
    BareScan(s, '#');
    BareScan(s, ':');
  }

  lemma BareReads(s: string)
    requires !NeedsQuote(s) && !BareKeyword(s) && !LooksNumeric(s)
    ensures ReadScalar(s) == Str(s)
  {
    assert forall i :: 0 <= i < |s| ==> !IsReserved(s[i]);
    assert LowerAscii("true") == "true" && LowerAscii("false") == "false";
    assert LowerAscii("null") == "null" && LowerAscii("~") == "~";
    assert IsReserved("[]"[0]) && IsReserved("{}"[0]);
    assert !WrappedIn(s, '\'') && !WrappedIn(s, '"');
    assert Unsigned(s) == s && !IsDigit(s[0]) && s[0] != '.';
    assert !IsIntegerText(s);
    DottedStart(s);
  }

  lemma DottedStart(s: string)
    requires s != "" && Unsigned(s) == s && !IsDigit(s[0]) && s[0] != '.'
    ensures !IsDecimalText(s)
  {
    var head := s[..IndexOf(s, '.')];
    assert head != "" ==> head[0] == s[0];
  }

  lemma IntegerIsCalm(n: int)
    ensures Calm(IntText(n))
  {
    var t := IntText(n);
    assert forall i :: 0 <= i < |t| ==> IsDigit(t[i]) || t[i] == '-';
    BareScan(t, '#');
    BareScan(t, ':');
  }

  lemma IntegerReads(n: int)
    ensures ReadScalar(IntText(n)) == Int(n)
  {
    var t := IntText(n);
    var m := if n < 0 then -n else n;
    ParseOfNatText(m);
    assert Unsigned(t) == NatText(m);
    assert IsIntegerText(t);
    assert t[0] == '-' <==> n < 0;
    assert t[0] == '-' || IsDigit(t[0]);
  }

  lemma DecimalChars(t: string)
    requires IsDecimalText(t)
    ensures forall i :: 0 < i < |t| ==> IsDigit(t[i]) || t[i] == '.'
    ensures t[0] == '+' || t[0] == '-' || t[0] == '.' || IsDigit(t[0])
    ensures |t| > 1 && IsDigit(t[|t| - 1]) && !IsIntegerText(t)
  {
    var u := Unsigned(t);
    var dot := IndexOf(u, '.');
    assert u[dot] == '.';
    forall i | 0 <= i < |u| && i != dot ensures IsDigit(u[i]) {
      assert i < dot ==> u[i] == u[..dot][i];
      assert i > dot ==> u[i] == u[dot + 1..][i - dot - 1];
    }
    assert |u| > dot + 1 && IsDigit(u[|u| - 1]);
  }

  lemma DecimalRoundTrip(t: string)
    requires IsDecimalText(t)
    ensures Calm(t) && ReadScalar(t) == Real(t)
  {
    hide IsDecimalText, IsIntegerText, UndoubleQuotes, UnescapeQuotes;
    DecimalChars(t);
    BareScan(t, '#');
    BareScan(t, ':');
  }

  lemma TextRoundTrip(s: string)
    requires OneLine(s)
    ensures Calm(FormatText(s)) && ReadScalar(FormatText(s)) == Str(s)
  {
    assert "'" + DoubleQuotes("") + "'" == "''";
    if s == "" || NeedsQuote(s) || BareKeyword(s) || LooksNumeric(s) {
      QuotedIsCalm(s);
      QuotedReads(s);
    } else {
      BareIsCalm(s);
      BareReads(s);
    }
  }

  lemma WordIsCalm(word: string)
    requires word == "null" || word == "true" || word == "false"
    ensures Calm(word)
  {
    BareScan(word, '#');
    BareScan(word, ':');
  }

  /** A scalar printed and read back is itself; `undefined` comes back as null. */
  lemma ScalarRoundTrip(v: Json)
    requires IsScalar(v)
    requires v.Str? ==> OneLine(v.s)
    requires v.Real? ==> IsDecimalText(v.literal)
    ensures Calm(FormatScalar(v))
    ensures ParseScalar(FormatScalar(v)) == if v.Undefined? then Null else v
  {
    if v.Str? {
      TextRoundTrip(v.s);
    } else if v.Int? {
      IntegerIsCalm(v.n);
      IntegerReads(v.n);
    } else if v.Real? {
      DecimalRoundTrip(v.literal);
    } else {
      WordIsCalm(FormatScalar(v));
    }
    TrimOfTrimmed(FormatScalar(v));
  }

  lemma KeyRoundTrip(key: string)
    requires OneLine(key)
    ensures Calm(FormatText(key)) && FormatText(key)[0] != '-'
    ensures UnquoteKey(FormatText(key)) == key
  {
    ScalarRoundTrip(Str(key));
  }

  // --------------------------------------------------- which texts stand bare

  /** An indicator of section 5.3 of YAML 1.2. */
  predicate IsIndicator(c: char) { c in "-?:,[]{}#&*!|>'\"%@`" }

  /** `s` is the lower-case word `w`, in whatever case. */
  predicate InAnyCase(s: string, w: string) {
    |s| == |w| && forall i :: 0 <= i < |s| ==> s[i] == w[i] || ('a' <= w[i] <= 'z' && s[i] as int == w[i] as int - 32)
  }

  /** The words that some version of YAML reads as null or as a boolean. */
  const WORDS: set<string> := {"true", "false", "null", "yes", "no", "on", "off", "~"}

  lemma LowerIs(s: string, w: string)
    requires forall i :: 0 <= i < |w| ==> 'a' <= w[i] <= 'z' || w[i] == '~'
    ensures LowerAscii(s) == w <==> InAnyCase(s, w)
  {
    if InAnyCase(s, w) {
      assert forall i :: 0 <= i < |s| ==> LowerAscii(s)[i] == w[i];
    }
    if LowerAscii(s) == w {
      assert forall i :: 0 <= i < |s| ==> LowerAscii(s)[i] == w[i];
    }
  }

  lemma KeywordIs(s: string)
    ensures BareKeyword(s) <==> exists w :: w in WORDS && InAnyCase(s, w)
  {
    hide LowerAscii, InAnyCase;
    forall w | w in WORDS ensures LowerAscii(s) == w <==> InAnyCase(s, w) { LowerIs(s, w); }
  }

  /** A text is printed without quotes exactly when it is not empty, holds no indicator
      but `-` and `?` behind its first character, has no white space at its ends, is no
      word for null or a boolean, and does not begin like a number. */
  lemma BareExactly(s: string)
    ensures FormatText(s) == s <==>
      && s != ""
      && (forall i :: 0 <= i < |s| && IsIndicator(s[i]) ==> i > 0 && (s[i] == '-' || s[i] == '?'))
      && !IsSpace(s[0]) && !IsSpace(s[|s| - 1])
      && (forall w :: w in WORDS ==> !InAnyCase(s, w))
      && s[0] !in "0123456789.+"
  {
    hide BareKeyword, InAnyCase, IsSpace;
    KeywordIs(s);
    QuotedIsLonger(s);
    assert forall c :: IsIndicator(c) <==> IsReserved(c) || c == '-' || c == '?';
    assert s != "" ==> (s[0] in "0123456789.+-" <==> LooksNumeric(s));
  }

  lemma {:induction false} QuotedIsLonger(s: string)
    ensures |DoubleQuotes(s)| >= |s|
  {
    if s != "" { QuotedIsLonger(s[1..]); }
  }
}
