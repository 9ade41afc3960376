/** How a node reads a ruleset: words, lines, tables, chains and rules - as much of
    nft's language as the agent writes. */
module Nftables {
  import opened Text
  import opened Options

  // ------------------------------------------------------------------ words

  predicate IsBlank(c: char) { c == ' ' || c == '\t' }

  /** Something that stands as one word on one line. */
  predicate Word(s: string) { s != "" && forall i :: 0 <= i < |s| ==> !IsSpace(s[i]) }

  function WordEnd(s: string): (i: nat)
    ensures i <= |s| && (i < |s| ==> IsBlank(s[i]))
    ensures forall j :: 0 <= j < i ==> !IsBlank(s[j])
  {
    if s == "" || IsBlank(s[0]) then 0 else 1 + WordEnd(s[1..])
  }

  function Words(s: string): seq<string>
    decreases |s|
  {
    var i := WordEnd(s);
    (if i == 0 then [] else [s[..i]]) + (if i == |s| then [] else Words(s[i + 1..]))
  }

  lemma WordEndIs(s: string, i: nat)
    requires i <= |s| && (i < |s| ==> IsBlank(s[i])) && forall j :: 0 <= j < i ==> !IsBlank(s[j])
    ensures WordEnd(s) == i
  {}

  /** A blank separates, whatever stands on its two sides. */
  lemma {:induction false} WordsOfTwo(a: string, blank: char, b: string)
    requires IsBlank(blank)
    ensures Words(a + [blank] + b) == Words(a) + Words(b)
    decreases |a|
  {
    hide Words;
    var s, i := a + [blank] + b, WordEnd(a);
    assert s[..i] == a[..i];
    WordsAt(a, i);
    WordsAt(s, i);
    if i == |a| {
      assert s[i + 1..] == b;
    } else {
      var rest := a[i + 1..];
      assert s[i + 1..] == rest + [blank] + b;
      WordsOfTwo(rest, blank, b);
    }
  }

  lemma WordsAt(s: string, i: nat)
    requires i <= |s| && (i < |s| ==> IsBlank(s[i])) && forall j :: 0 <= j < i ==> !IsBlank(s[j])
    ensures Words(s) == (if i == 0 then [] else [s[..i]]) + (if i == |s| then [] else Words(s[i + 1..]))
  {
    WordEndIs(s, i);
  }

  lemma OneWord(w: string)
    requires Word(w)
    ensures Words(w) == [w]
  {
    WordEndIs(w, |w|);
    assert w[..|w|] == w;
  }

  /** `words.join(" ")` */
  function JoinWords(parts: seq<string>): string {
    if parts == [] then ""
    else if |parts| == 1 then parts[0]
    else parts[0] + " " + JoinWords(parts[1..])
  }

  function AllWords(parts: seq<string>): seq<string> {
    if parts == [] then [] else Words(parts[0]) + AllWords(parts[1..])
  }

  lemma {:induction false} WordsOfJoin(parts: seq<string>)
    ensures Words(JoinWords(parts)) == AllWords(parts)
  {
    if |parts| > 1 {
      WordsOfTwo(parts[0], ' ', JoinWords(parts[1..]));
      WordsOfJoin(parts[1..]);
    } else if |parts| == 1 {
      assert AllWords(parts[1..]) == [];
    } else {
      WordEndIs("", 0);
    }
  }

  lemma {:induction false} JoinedWords(ws: seq<string>)
    requires forall i :: 0 <= i < |ws| ==> Word(ws[i])
    ensures AllWords(ws) == ws && Words(JoinWords(ws)) == ws
  {
    WordsOfJoin(ws);
    AllWordsThemselves(ws);
  }

  lemma {:induction false} AllWordsThemselves(ws: seq<string>)
    requires forall i :: 0 <= i < |ws| ==> Word(ws[i])
    ensures AllWords(ws) == ws
  {
    if ws != [] {
      OneWord(ws[0]);
      AllWordsThemselves(ws[1..]);
      assert ws == [ws[0]] + ws[1..];
    }
  }

  // ------------------------------------------------------------------ rules

  /** The words that come after an address or a port in a rule line. */
  predicate Follows(w: string) { w == "tcp" || w == "udp" || w == "meta" || w == "accept" || w == "drop" }

  predicate PhraseWords(ws: seq<string>) {
    ws != [] && forall i :: 0 <= i < |ws| ==> Word(ws[i]) && !Follows(ws[i])
  }

  ghost predicate Phrases(p: seq<string> -> bool) { forall ws :: p(ws) ==> PhraseWords(ws) }

  /** Which phrases, of one word or several, nft takes for an IPv4 address and for a
      port: a network, a range, a set, a name. */
  datatype Operands = Operands(address: seq<string> -> bool, port: seq<string> -> bool)

  const NO_OPERANDS := Operands(ws => false, ws => false)

  /** Whatever they are, no such phrase holds white space or one of nft's own words. */
  type Grammar = o: Operands | Phrases(o.address) && Phrases(o.port) witness NO_OPERANDS

  /** The length of the longest of the first `n` prefixes that is a phrase; 0 if none is. */
  function LongestUpTo(p: seq<string> -> bool, ws: seq<string>, n: nat): (k: nat)
    requires n <= |ws|
    ensures k <= n && (k > 0 ==> p(ws[..k]))
  {
    if n == 0 || p(ws[..n]) then n else LongestUpTo(p, ws, n - 1)
  }

  function Longest(p: seq<string> -> bool, ws: seq<string>): nat { LongestUpTo(p, ws, |ws|) }

  /** Before a word that follows, a phrase is taken whole and no further. */
  lemma {:induction false} LongestIs(p: seq<string> -> bool, phrase: seq<string>, rest: seq<string>, n: nat)
    requires Phrases(p) && p(phrase) && rest != [] && Follows(rest[0])
    requires |phrase| <= n <= |phrase| + |rest|
    ensures LongestUpTo(p, phrase + rest, n) == |phrase|
  {
    var ws := phrase + rest;
    if n == |phrase| {
      assert ws[..n] == phrase;
      assert PhraseWords(phrase);
    } else {
      assert ws[..n][|phrase|] == rest[0];
      assert !PhraseWords(ws[..n]);
      LongestIs(p, phrase, rest, n - 1);
    }
  }

  datatype Match =
    | FromNet(net: seq<string>)
    | ToNet(net: seq<string>)
    | DestinationPort(proto: string, port: seq<string>)
    | Protocol(protos: seq<string>)
    | Established
    | Loopback

  datatype Rule = Rule(matches: seq<Match>, accept: bool)

  datatype Chain = Chain(hook: Option<string>, policy: bool, rules: seq<Rule>)

  type Table = map<string, Chain>

  function Verdict(ws: seq<string>): Option<bool> {
    if ws == ["accept"] then Some(true) else if ws == ["drop"] then Some(false) else None
  }

  /** One match and the number of words it takes. */
  function ReadMatch(g: Grammar, ws: seq<string>): Option<(Match, nat)>
    ensures var r := ReadMatch(g, ws); r.Some? ==> 0 < r.value.1 <= |ws|
  {
    if |ws| < 2 then None
    else if ws[0] == "iif" && ws[1] == "\"lo\"" then Some((Loopback, 2))
    else if ws[0] == "oif" && ws[1] == "\"lo\"" then Some((Loopback, 2))
    else if |ws| < 3 then None
    else if ws[0] == "ip" && (ws[1] == "saddr" || ws[1] == "daddr") then
      var n := Longest(g.address, ws[2..]);
      if n == 0 then None
      else Some((if ws[1] == "saddr" then FromNet(ws[2..][..n]) else ToNet(ws[2..][..n]), 2 + n))
    else if (ws[0] == "tcp" || ws[0] == "udp") && ws[1] == "dport" then
      var n := Longest(g.port, ws[2..]);
      if n == 0 then None else Some((DestinationPort(ws[0], ws[2..][..n]), 2 + n))
    else if ws[0] == "ct" && ws[1] == "state" && ws[2] == "established,related" then Some((Established, 3))
    else if ws[0] == "meta" && ws[1] == "l4proto" then
      if ws[2] != "{" then Some((Protocol([ws[2]]), 3))
      else if |ws| >= 6 && ws[3] == "icmp," && ws[4] == "icmpv6" && ws[5] == "}" then
        Some((Protocol(["icmp", "icmpv6"]), 6))
      else None
    else None
  }

  lemma ReadAddress(g: Grammar, side: string, net: seq<string>, rest: seq<string>)
    requires (side == "saddr" || side == "daddr") && g.address(net) && rest != [] && Follows(rest[0])
    ensures ReadMatch(g, ["ip", side] + net + rest)
            == Some((if side == "saddr" then FromNet(net) else ToNet(net), 2 + |net|))
  {
    var ws := ["ip", side] + net + rest;
    assert ws[2..] == net + rest && (net + rest)[..|net|] == net && net != [] by { assert PhraseWords(net); }
    LongestIs(g.address, net, rest, |net + rest|);
    assert ws[0] == "ip" && ws[1] == side;
  }

  lemma ReadPort(g: Grammar, proto: string, port: seq<string>, rest: seq<string>)
    requires (proto == "tcp" || proto == "udp") && g.port(port) && rest != [] && Follows(rest[0])
    ensures ReadMatch(g, [proto, "dport"] + port + rest) == Some((DestinationPort(proto, port), 2 + |port|))
  {
    var ws := [proto, "dport"] + port + rest;
    assert ws[2..] == port + rest && (port + rest)[..|port|] == port && port != [] by { assert PhraseWords(port); }
    LongestIs(g.port, port, rest, |port + rest|);
    assert ws[0] == proto && ws[1] == "dport";
  }

  lemma ReadProtocol(g: Grammar, ws: seq<string>)
    requires |ws| >= 3 && ws[0] == "meta" && ws[1] == "l4proto" && ws[2] != "{"
    ensures ReadMatch(g, ws) == Some((Protocol([ws[2]]), 3))
  {}

  lemma ReadProtocols(g: Grammar, ws: seq<string>)
    requires |ws| >= 6 && ws[..6] == ["meta", "l4proto", "{", "icmp,", "icmpv6", "}"]
    ensures ReadMatch(g, ws) == Some((Protocol(["icmp", "icmpv6"]), 6))
  {
    assert ws[0] == ws[..6][0] && ws[1] == ws[..6][1] && ws[2] == ws[..6][2];
    assert ws[3] == ws[..6][3] && ws[4] == ws[..6][4] && ws[5] == ws[..6][5];
  }

  function ReadRule(g: Grammar, ws: seq<string>): Option<Rule>
    decreases |ws|
  {
    match Verdict(ws)
    case Some(accept) => Some(Rule([], accept))
    case None =>
      match ReadMatch(g, ws)
      case None => None
      case Some((m, n)) =>
        match ReadRule(g, ws[n..])
        case None => None
        case Some(r) => Some(Rule([m] + r.matches, r.accept))
  }

  // ------------------------------------------------------------------ rulesets

  /** What the kernel holds, and the table and chain whose braces are open. */
  datatype Loader = Loader(kernel: map<string, Table>, table: Option<string>, chain: Option<string>)

  predicate Open(l: Loader) {
    && (l.table.Some? ==> l.table.value in l.kernel)
    && (l.chain.Some? ==> l.table.Some? && l.chain.value in l.kernel[l.table.value])
  }

  function Policy(w: string): Option<bool> {
    if w == "accept;" then Some(true) else if w == "drop;" then Some(false) else None
  }

  function InTable(l: Loader, c: string, chain: Chain): Loader
    requires Open(l) && l.table.Some?
  {
    l.(kernel := l.kernel[l.table.value := l.kernel[l.table.value][c := chain]])
  }

  /** A line outside any table. */
  function TopLine(l: Loader, ws: seq<string>): (r: Option<Loader>)
    requires Open(l) && l.table == None
    ensures r.Some? ==> Open(r.value)
  {
    if |ws| == 3 && ws[0] == "table" && ws[1] == "inet" then
      Some(l.(kernel := if ws[2] in l.kernel then l.kernel else l.kernel[ws[2] := map[]]))
    else if |ws| == 4 && ws[0] == "delete" && ws[1] == "table" && ws[2] == "inet" then
      if ws[3] in l.kernel then Some(l.(kernel := l.kernel - {ws[3]})) else None
    else if |ws| == 4 && ws[0] == "table" && ws[1] == "inet" && ws[3] == "{" then
      Some(l.(kernel := if ws[2] in l.kernel then l.kernel else l.kernel[ws[2] := map[]], table := Some(ws[2])))
    else None
  }

  /** A line inside a table. */
  function TableLine(l: Loader, ws: seq<string>): (r: Option<Loader>)
    requires Open(l) && l.table.Some? && l.chain == None
    ensures r.Some? ==> Open(r.value)
  {
    if ws == ["}"] then Some(l.(table := None))
    else if |ws| == 3 && ws[0] == "chain" && ws[2] == "{" then
      var t := l.kernel[l.table.value];
      Some(InTable(l, ws[1], if ws[1] in t then t[ws[1]] else Chain(None, true, [])).(chain := Some(ws[1])))
    else None
  }

  /** A line inside a chain. */
  function ChainLine(g: Grammar, l: Loader, ws: seq<string>): (r: Option<Loader>)
    requires Open(l) && l.chain.Some?
    ensures r.Some? ==> Open(r.value)
  {
    var c := l.kernel[l.table.value][l.chain.value];
    if ws == ["}"] then Some(l.(chain := None))
    else if |ws| == 8 && ws[0] == "type" && ws[1] == "filter" && ws[2] == "hook" then
      if ws[4] == "priority" && ws[5] == "0;" && ws[6] == "policy" && Policy(ws[7]).Some? then
        Some(InTable(l, l.chain.value, c.(hook := Some(ws[3]), policy := Policy(ws[7]).value)))
      else None
    else
      match ReadRule(g, ws)
      case None => None
      case Some(r) => Some(InTable(l, l.chain.value, c.(rules := c.rules + [r])))
  }

  function Line(g: Grammar, l: Loader, ws: seq<string>): (r: Option<Loader>)
    requires Open(l)
    ensures r.Some? ==> Open(r.value)
  {
    if ws == [] then Some(l)
    else if l.table == None then TopLine(l, ws)
    else if l.chain == None then TableLine(l, ws)
    else ChainLine(g, l, ws)
  }

  /** `None` if any line is refused; then nothing is applied. */
  function Load(g: Grammar, l: Loader, lines: seq<string>): (r: Option<Loader>)
    requires Open(l)
    ensures r.Some? ==> Open(r.value)
    decreases |lines|
  {
    if lines == [] then Some(l)
    else
      match Line(g, l, Words(lines[0]))
      case None => None
      case Some(next) => Load(g, next, lines[1..])
  }

  lemma {:induction false} LoadInTwo(g: Grammar, l: Loader, a: seq<string>, b: seq<string>)
    requires Open(l)
    ensures Load(g, l, a + b) == match Load(g, l, a) case None => None case Some(m) => Load(g, m, b)
    decreases |a|
  {
    hide Line, Words;
    if a == [] {
      assert a + b == b;
    } else {
      assert (a + b)[1..] == a[1..] + b;
      var next := Line(g, l, Words(a[0]));
      if next.Some? { LoadInTwo(g, next.value, a[1..], b); }
    }
  }

  // ----------------------------------------------------------------- verdicts

  datatype Packet = Packet(
    established: bool, loopback: bool, ip4: bool, source: nat, destination: nat, proto: string, port: nat)

  /** What address and port phrases mean. */
  datatype Env = Env(inNet: (seq<string>, nat) -> bool, inPorts: (seq<string>, nat) -> bool)

  predicate Holds(env: Env, m: Match, p: Packet) {
    match m
    case FromNet(net) => p.ip4 && env.inNet(net, p.source)
    case ToNet(net) => p.ip4 && env.inNet(net, p.destination)
    case DestinationPort(proto, port) => p.proto == proto && env.inPorts(port, p.port)
    case Protocol(protos) => p.proto in protos
    case Established => p.established
    case Loopback => p.loopback
  }

  predicate AllHold(env: Env, ms: seq<Match>, p: Packet) { forall i :: 0 <= i < |ms| ==> Holds(env, ms[i], p) }

  /** The first rule that matches decides, else the policy. */
  function Accepts(env: Env, rules: seq<Rule>, policy: bool, p: Packet): bool {
    if rules == [] then policy
    else if AllHold(env, rules[0].matches, p) then rules[0].accept
    else Accepts(env, rules[1..], policy, p)
  }
}
