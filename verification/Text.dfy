/** String primitives shared by the text formats: JavaScript white space and
    trimming, line joining and splitting, decimal numerals. */
module Text {

  /** The class `\s`, which is also what `String.prototype.trim` removes. */
  predicate IsSpace(c: char) {
    || '\t' <= c <= '\r' || c == ' ' || c == '\U{00A0}' || c == '\U{1680}'
    || '\U{2000}' <= c <= '\U{200A}' || c == '\U{2028}' || c == '\U{2029}'
    || c == '\U{202F}' || c == '\U{205F}' || c == '\U{3000}' || c == '\U{FEFF}'
  }

  predicate IsDigit(c: char) { '0' <= c <= '9' }

  function Spaces(n: nat): (s: string)
    ensures |s| == n && forall i :: 0 <= i < n ==> s[i] == ' '
  {
    seq(n, _ => ' ')
  }

  function TrimStart(s: string): (t: string)
    ensures |t| <= |s| && t == s[|s| - |t|..]
    ensures t != "" ==> !IsSpace(t[0])
    ensures forall i :: 0 <= i < |s| - |t| ==> IsSpace(s[i])
  {
    if s != "" && IsSpace(s[0]) then TrimStart(s[1..]) else s
  }

  function TrimEnd(s: string): (t: string)
    ensures t <= s
    ensures t != "" ==> !IsSpace(t[|t| - 1])
    ensures forall i :: |t| <= i < |s| ==> IsSpace(s[i])
  {
    if s != "" && IsSpace(s[|s| - 1]) then TrimEnd(s[..|s| - 1]) else s
  }

  function Trim(s: string): string { TrimEnd(TrimStart(s)) }

  /** A non-empty text that `trim` leaves alone. */
  predicate Trimmed(s: string) {
    s != "" && !IsSpace(s[0]) && !IsSpace(s[|s| - 1])
  }

  lemma TrimOfPadded(pad: nat, s: string)
    requires Trimmed(s)
    ensures TrimStart(Spaces(pad) + s) == s && Trim(Spaces(pad) + s) == s
  {
    var p := Spaces(pad) + s;
    assert p[pad] == s[0];
    assert p[pad..] == s;
    TrimEndKeeps(s);
  }

  lemma TrimEndKeeps(s: string)
    requires s == "" || !IsSpace(s[|s| - 1])
    ensures TrimEnd(s) == s
  {}

  /** No line feed inside, so the text stays on one line. */
  predicate OneLine(s: string) { '\n' !in s }

  /** A line that `split(/\r?\n/)` gives back whole. */
  predicate WholeLine(s: string) { OneLine(s) && (s == "" || s[|s| - 1] != '\r') }

  function IndexOf(s: string, c: char): (i: nat)
    ensures i <= |s| && c !in s[..i] && (i < |s| ==> s[i] == c)
  {
    if s == "" || s[0] == c then 0 else
      assert s[..1 + IndexOf(s[1..], c)] == [s[0]] + s[1..][..IndexOf(s[1..], c)];
      1 + IndexOf(s[1..], c)
  }

  lemma {:induction false} IndexOfIs(s: string, c: char, i: nat)
    requires i < |s| && s[i] == c && c !in s[..i]
    ensures IndexOf(s, c) == i
  {
    if i > 0 {
      assert s[0] == s[..i][0];
      assert s[1..][..i - 1] == s[..i][1..];
      IndexOfIs(s[1..], c, i - 1);
    }
  }

  function DropCr(s: string): string {
    if s != "" && s[|s| - 1] == '\r' then s[..|s| - 1] else s
  }

  /** `text.split(/\r?\n/)` */
  function SplitLines(text: string): (lines: seq<string>)
    ensures lines != []
    ensures forall l :: l in lines ==> OneLine(l)
    decreases |text|
  {
    var i := IndexOf(text, '\n');
    if i == |text| then
      assert text[..i] == text;
      [text]
    else [DropCr(text[..i])] + SplitLines(text[i + 1..])
  }

  /** `lines.join('\n')` */
  function JoinLines(lines: seq<string>): string {
    if |lines| == 0 then ""
    else if |lines| == 1 then lines[0]
    else lines[0] + "\n" + JoinLines(lines[1..])
  }

  lemma SplitFirst(l: string, rest: string)
    requires WholeLine(l)
    ensures SplitLines(l + "\n" + rest) == [l] + SplitLines(rest)
  {
    var text := l + "\n" + rest;
    assert text[..|l|] == l && text[|l| + 1..] == rest;
    IndexOfIs(text, '\n', |l|);
  }

  lemma {:induction false} SplitOfJoin(lines: seq<string>)
    requires lines != [] && forall l :: l in lines ==> WholeLine(l)
    ensures SplitLines(JoinLines(lines) + "\n") == lines + [""]
  {
    assert lines[0] in lines;
    if |lines| == 1 {
      assert JoinLines(lines) + "\n" == lines[0] + "\n" + "";
      SplitFirst(lines[0], "");
      assert SplitLines("") == [""];
    } else {
      var rest := JoinLines(lines[1..]) + "\n";
      assert JoinLines(lines) + "\n" == lines[0] + "\n" + rest;
      SplitFirst(lines[0], rest);
      SplitOfJoin(lines[1..]);
      assert lines == [lines[0]] + lines[1..];
    }
  }

  /** `p` occurs somewhere in `s`. */
  predicate Occurs(p: string, s: string) { p <= s || (s != "" && Occurs(p, s[1..])) }

  lemma {:induction false} OccursAt(p: string, s: string, i: nat)
    requires i <= |s| && p <= s[i..]
    ensures Occurs(p, s)
  {
    if i > 0 {
      assert s[1..][i - 1..] == s[i..];
      OccursAt(p, s[1..], i - 1);
    } else {
      assert s[0..] == s;
    }
  }

  lemma {:induction false} OccurrenceOf(p: string, s: string) returns (i: nat)
    requires Occurs(p, s)
    ensures i <= |s| && p <= s[i..]
  {
    if p <= s {
      i := 0;
      assert s[0..] == s;
    } else {
      var j := OccurrenceOf(p, s[1..]);
      i := j + 1;
      assert s[1..][j..] == s[i..];
    }
  }

  lemma OccursInPart(p: string, before: string, s: string, after: string)
    requires Occurs(p, s)
    ensures Occurs(p, before + s + after)
  {
    var i := OccurrenceOf(p, s);
    var t := before + s + after;
    assert t[|before| + i..] == s[i..] + after;
    OccursAt(p, t, |before| + i);
  }

  // ------------------------------------------------------------- numerals

  function Digit(d: nat): (c: char)
    requires d < 10
    ensures IsDigit(c)
  {
    '0' + d as char
  }

  /** Decimal digits of `n`, without leading zeros. */
  function NatText(n: nat): (s: string)
    ensures s != "" && forall i :: 0 <= i < |s| ==> IsDigit(s[i])
    ensures s[0] == '0' ==> n == 0
  {
    if n < 10 then [Digit(n)] else NatText(n / 10) + [Digit(n % 10)]
  }

  function ParseNat(s: string): nat
    requires forall i :: 0 <= i < |s| ==> IsDigit(s[i])
  {
    if s == "" then 0 else
      assert IsDigit(s[|s| - 1]);
      10 * ParseNat(s[..|s| - 1]) + (s[|s| - 1] as int - '0' as int)
  }

  lemma {:induction false} ParseOfNatText(n: nat)
    ensures ParseNat(NatText(n)) == n
  {
    if n < 10 {
      assert NatText(n)[..0] == "";
    } else {
      ParseOfNatText(n / 10);
      assert NatText(n)[..|NatText(n)| - 1] == NatText(n / 10);
    }
  }

  function IntText(n: int): (s: string)
    ensures s != ""
  {
    if n < 0 then "-" + NatText(-n) else NatText(n)
  }
}
