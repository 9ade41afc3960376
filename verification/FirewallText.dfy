/** What nft makes of the rendered text: every line is read as the words it is made
    of, every rule line as its rule, and the whole text as one table that replaces
    the one before. */
module FirewallText {
  import opened Text
  import opened Options
  import opened Nftables
  import opened Firewall

  // --------------------------------------------------------- what a rule line says

  /** Its address and port, where they are written out, are ones that nft takes. */
  predicate PlainRule(g: Grammar, r: RuleSpec) {
    && (HasNet(r) ==> g.address(Words(r.cidr)))
    && ((r.protocol == Tcp || r.protocol == Udp) && HasPort(r) ==> g.port(Words(RustTrim(r.port.value))))
  }

  function NetMatch(r: RuleSpec): seq<Match> {
    if !HasNet(r) then []
    else if r.direction == Inbound then [FromNet(Words(r.cidr))] else [ToNet(Words(r.cidr))]
  }

  function ProtocolMatch(r: RuleSpec): seq<Match> {
    match r.protocol
    case Tcp => if HasPort(r) then [DestinationPort("tcp", Words(RustTrim(r.port.value)))] else [Protocol(["tcp"])]
    case Udp => if HasPort(r) then [DestinationPort("udp", Words(RustTrim(r.port.value)))] else [Protocol(["udp"])]
    case Icmp => [Protocol(["icmp", "icmpv6"])]
    case Any => []
  }

  /** The rule that a rule line is meant as. */
  function Meaning(r: RuleSpec): Rule { Rule(NetMatch(r) + ProtocolMatch(r), r.action == Allow) }

  /** The rule that nft reads its line as. */
  function Reading(g: Grammar, r: RuleSpec): Option<Rule> { ReadRule(g, Words(JoinWords(Parts(r)))) }

  function NetTokens(r: RuleSpec): seq<string> {
    if HasNet(r) then ["ip", AddressWord(r.direction)] + Words(r.cidr) else []
  }

  function ProtocolTokens(r: RuleSpec): seq<string> {
    match r.protocol
    case Tcp =>
      if HasPort(r) then ["tcp", "dport"] + Words(RustTrim(r.port.value)) else ["meta", "l4proto", "tcp"]
    case Udp =>
      if HasPort(r) then ["udp", "dport"] + Words(RustTrim(r.port.value)) else ["meta", "l4proto", "udp"]
    case Icmp => ["meta", "l4proto", "{", "icmp,", "icmpv6", "}"]
    case Any => []
  }

  lemma NetIsTokens(r: RuleSpec)
    ensures AllWords(NetWords(r)) == NetTokens(r)
  {
    hide Words;
    FixedWords();
    if HasNet(r) { TwoWordsAnd("ip", AddressWord(r.direction), r.cidr); }
  }

  lemma ProtocolIsTokens(r: RuleSpec)
    ensures AllWords(ProtocolWords(r)) == ProtocolTokens(r)
  {
    hide Words, RustTrim, AllWords, Word;
    FixedWords();
    AllWordsOfOne("");
    if r.protocol == Tcp || r.protocol == Udp {
      if HasPort(r) {
        TwoWordsAnd(if r.protocol == Tcp then "tcp" else "udp", "dport", RustTrim(r.port.value));
      } else {
        JoinedWords(ProtocolWords(r));
      }
    } else if r.protocol == Icmp {
      JoinedWords(ProtocolWords(r));
    }
  }

  lemma TwoWordsAnd(a: string, b: string, c: string)
    requires Word(a) && Word(b)
    ensures AllWords([a, b, c]) == [a, b] + Words(c)
  {
    hide Words, Word;
    OneWord(a);
    OneWord(b);
    assert [a, b, c][1..] == [b, c] && [b, c][1..] == [c] && [c][1..] == [];
    AllWordsOfOne(c);
  }

  /** Every rule line as nft's words. */
  lemma PartsWords(r: RuleSpec)
    ensures Words(JoinWords(Parts(r))) == NetTokens(r) + ProtocolTokens(r) + [VerdictWord(r.action)]
  {
    hide JoinWords, Words, NetWords, ProtocolWords, NetTokens, ProtocolTokens, VerdictWord, AllWords;
    var verdict := VerdictWord(r.action);
    NetIsTokens(r);
    ProtocolIsTokens(r);
    NoTokens(r);
    VerdictIsWord(r.action);
    OneWord(verdict);
    WordsOfJoin(NetWords(r));
    WordsOfJoin(ProtocolWords(r));
    WordsOfJoin(Parts(r));
    AllWordsOfThree(
      if HasNet(r) then [JoinWords(NetWords(r))] else [],
      if r.protocol == Any then [] else [JoinWords(ProtocolWords(r))], [verdict]);
    AllWordsOfOne(JoinWords(NetWords(r)));
    AllWordsOfOne(JoinWords(ProtocolWords(r)));
    AllWordsOfOne(verdict);
  }

  lemma NoTokens(r: RuleSpec)
    ensures !HasNet(r) ==> NetTokens(r) == []
    ensures r.protocol == Any ==> ProtocolTokens(r) == []
  {}

  lemma VerdictIsWord(a: Action)
    ensures Word(VerdictWord(a)) && Follows(VerdictWord(a))
  {
    FixedWords();
  }

  /** A text of printable ASCII is one word. */
  lemma Printable(s: string)
    requires s != "" && forall i :: 0 <= i < |s| ==> '!' <= s[i] <= '~'
    ensures Word(s)
  {}

  lemma FixedWords()
    ensures Word("accept") && Word("drop") && Word("ip") && Word("saddr") && Word("daddr")
    ensures Word("tcp") && Word("udp") && Word("dport") && Word("meta") && Word("l4proto")
    ensures Word("{") && Word("icmp,") && Word("icmpv6") && Word("}")
  {
    hide Word;
    Printable("accept");
    Printable("drop");
    Printable("ip");
    Printable("saddr");
    Printable("daddr");
    Printable("tcp");
    Printable("udp");
    Printable("dport");
    Printable("meta");
    Printable("l4proto");
    Printable("{");
    Printable("icmp,");
    Printable("icmpv6");
    Printable("}");
  }

  lemma AllWordsOfOne(p: string)
    ensures AllWords([p]) == Words(p) && AllWords([]) == []
  {
    assert AllWords([p][1..]) == [];
  }

  lemma {:induction false} AllWordsOfTwo(a: seq<string>, b: seq<string>)
    ensures AllWords(a + b) == AllWords(a) + AllWords(b)
  {
    hide Words;
    if a == [] {
      assert a + b == b;
    } else {
      AllWordsOfTwo(a[1..], b);
      assert (a + b)[1..] == a[1..] + b && (a + b)[0] == a[0];
      assert AllWords(a) == Words(a[0]) + AllWords(a[1..]);
    }
  }

  lemma AllWordsOfThree(a: seq<string>, b: seq<string>, c: seq<string>)
    ensures AllWords(a + b + c) == AllWords(a) + AllWords(b) + AllWords(c)
  {
    AllWordsOfTwo(a + b, c);
    AllWordsOfTwo(a, b);
  }

  lemma MatchThenRule(g: Grammar, ws: seq<string>, rest: seq<string>, m: Match)
    requires |ws| >= 2 && ReadMatch(g, ws + rest) == Some((m, |ws|))
    ensures ReadRule(g, ws + rest) ==
      match ReadRule(g, rest) case None => None case Some(r) => Some(Rule([m] + r.matches, r.accept))
  {
    assert (ws + rest)[|ws|..] == rest;
    assert Verdict(ws + rest) == None;
  }

  lemma VerdictOnly(g: Grammar, a: Action)
    ensures ReadRule(g, [VerdictWord(a)]) == Some(Rule([], a == Allow))
  {}

  /** What comes after a rule's address. */
  lemma TailFollows(r: RuleSpec)
    ensures var tail := ProtocolTokens(r) + [VerdictWord(r.action)]; tail != [] && Follows(tail[0])
  {
    hide Words, RustTrim;
  }

  lemma NetIsRead(g: Grammar, r: RuleSpec, rest: seq<string>)
    requires HasNet(r) && PlainRule(g, r) && rest != [] && Follows(rest[0])
    ensures |NetTokens(r)| >= 2
    ensures ReadMatch(g, NetTokens(r) + rest) == Some((NetMatch(r)[0], |NetTokens(r)|))
  {
    hide ReadMatch, Words, RustTrim, Follows;
    ReadAddress(g, AddressWord(r.direction), Words(r.cidr), rest);
  }

  lemma ProtocolIsRead(g: Grammar, r: RuleSpec, rest: seq<string>)
    requires r.protocol != Any && PlainRule(g, r) && rest != [] && Follows(rest[0])
    ensures |ProtocolTokens(r)| >= 2
    ensures ReadMatch(g, ProtocolTokens(r) + rest) == Some((ProtocolMatch(r)[0], |ProtocolTokens(r)|))
  {
    hide ReadMatch, RustTrim, Words, Follows;
    var ws, own := ProtocolTokens(r) + rest, ProtocolTokens(r);
    assert forall i :: 0 <= i < |own| ==> ws[i] == own[i];
    if r.protocol == Icmp {
      assert ws[..6] == own;
      ReadProtocols(g, ws);
    } else if HasPort(r) {
      ReadPort(g, if r.protocol == Tcp then "tcp" else "udp", Words(RustTrim(r.port.value)), rest);
    } else {
      ReadProtocol(g, ws);
    }
  }

  /** The rule line of a plain rule is read as that rule. */
  lemma RuleIsRead(g: Grammar, r: RuleSpec)
    requires PlainRule(g, r)
    ensures Reading(g, r) == Some(Meaning(r))
  {
    hide ReadMatch, ReadRule, Words, JoinWords, NetTokens, ProtocolTokens, Parts, VerdictWord, PlainRule, Follows,
      NetMatch, ProtocolMatch;
    PartsWords(r);
    NoTokens(r);
    TailFollows(r);
    ProtocolThenVerdict(g, r);
    var tail := ProtocolTokens(r) + [VerdictWord(r.action)];
    assert NetTokens(r) + ProtocolTokens(r) + [VerdictWord(r.action)] == NetTokens(r) + tail;
    MatchCounts(r);
    if HasNet(r) {
      NetIsRead(g, r, tail);
      MatchThenRule(g, NetTokens(r), tail, NetMatch(r)[0]);
      assert [NetMatch(r)[0]] == NetMatch(r);
    } else {
      assert NetTokens(r) + tail == tail;
      assert [] + ProtocolMatch(r) == ProtocolMatch(r);
    }
  }

  lemma MatchCounts(r: RuleSpec)
    ensures |NetMatch(r)| == if HasNet(r) then 1 else 0
    ensures |ProtocolMatch(r)| == if r.protocol == Any then 0 else 1
  {}

  predicate MatchOk(g: Grammar, m: Match) {
    match m
    case FromNet(net) => g.address(net)
    case ToNet(net) => g.address(net)
    case DestinationPort(_, port) => g.port(port)
    case _ => true
  }

  predicate RuleOk(g: Grammar, r: Rule) { forall i :: 0 <= i < |r.matches| ==> MatchOk(g, r.matches[i]) }

  /** Whatever is read as a rule has addresses and ports that nft takes. */
  lemma {:induction false} ReadIsOk(g: Grammar, ws: seq<string>)
    ensures ReadRule(g, ws).Some? ==> RuleOk(g, ReadRule(g, ws).value)
    decreases |ws|
  {
    hide ReadMatch;
    if Verdict(ws) == None && ReadMatch(g, ws).Some? {
      MatchIsOk(g, ws);
      ReadIsOk(g, ws[ReadMatch(g, ws).value.1..]);
    }
  }

  lemma MatchIsOk(g: Grammar, ws: seq<string>)
    ensures ReadMatch(g, ws).Some? ==> MatchOk(g, ReadMatch(g, ws).value.0)
  {}

  lemma MeaningIsOk(g: Grammar, r: RuleSpec)
    ensures RuleOk(g, Meaning(r)) <==> PlainRule(g, r)
  {
    hide Words, RustTrim;
    var ms := Meaning(r).matches;
    if RuleOk(g, Meaning(r)) {
      if HasNet(r) { assert MatchOk(g, ms[0]); }
      if r.protocol != Icmp && r.protocol != Any && HasPort(r) { assert MatchOk(g, ms[|ms| - 1]); }
    }
  }

  /** For every rule: its line is read as that rule exactly when its address and port
      are ones that nft takes. */
  lemma RuleIsReadExactly(g: Grammar, r: RuleSpec)
    ensures Reading(g, r) == Some(Meaning(r)) <==> PlainRule(g, r)
  {
    hide ReadRule, Words, JoinWords, Parts, Meaning, PlainRule;
    if PlainRule(g, r) { RuleIsRead(g, r); }
    ReadIsOk(g, Words(JoinWords(Parts(r))));
    MeaningIsOk(g, r);
  }

  lemma ProtocolThenVerdict(g: Grammar, r: RuleSpec)
    requires PlainRule(g, r)
    ensures ReadRule(g, ProtocolTokens(r) + [VerdictWord(r.action)])
            == Some(Rule(ProtocolMatch(r), r.action == Allow))
  {
    hide ReadMatch, ReadRule, VerdictWord, Words, RustTrim, ProtocolTokens, ProtocolMatch, Follows;
    var verdict := [VerdictWord(r.action)];
    VerdictOnly(g, r.action);
    VerdictIsWord(r.action);
    NoTokens(r);
    MatchCounts(r);
    if r.protocol == Any {
      assert ProtocolTokens(r) + verdict == verdict;
    } else {
      ProtocolIsRead(g, r, verdict);
      MatchThenRule(g, ProtocolTokens(r), verdict, ProtocolMatch(r)[0]);
      assert [ProtocolMatch(r)[0]] + [] == ProtocolMatch(r);
    }
  }

  // ------------------------------------------------------ what the ruleset loads

  lemma IndentedWords(tabs: nat, ws: seq<string>)
    ensures Words(Indented(tabs, ws)) == AllWords(ws)
  {
    hide Words, JoinWords;
    WordsOfJoin(ws);
    TabsAreBlank(tabs, JoinWords(ws));
  }

  lemma {:induction false} TabsAreBlank(tabs: nat, s: string)
    ensures Words(Tabs(tabs) + s) == Words(s)
  {
    if tabs == 0 {
      assert Tabs(tabs) + s == s;
    } else {
      assert Tabs(tabs) + s == "" + ['\t'] + (Tabs(tabs - 1) + s);
      WordsOfTwo("", '\t', Tabs(tabs - 1) + s);
      NoWords();
      TabsAreBlank(tabs - 1, s);
    }
  }

  lemma NoWords()
    ensures Words("") == []
  {}

  predicate AreWords(ws: seq<string>) { forall i :: 0 <= i < |ws| ==> Word(ws[i]) }

  /** A line of single words is taken as those words. */
  lemma LoadLine(g: Grammar, l: Loader, tabs: nat, ws: seq<string>)
    requires Open(l) && AreWords(ws)
    ensures Load(g, l, [Indented(tabs, ws)]) == Line(g, l, ws)
  {
    hide Line, Indented;
    IndentedWords(tabs, ws);
    JoinedWords(ws);
    LoadOne(g, l, Indented(tabs, ws));
  }

  lemma LoadOne(g: Grammar, l: Loader, line: string)
    requires Open(l)
    ensures Load(g, l, [line]) == Line(g, l, Words(line))
  {
    hide Line, Words;
    var next := Line(g, l, Words(line));
    assert [line][1..] == [];
    assert next.Some? ==> Load(g, next.value, []) == next;
  }

  function With(l: Loader, hook: string, chain: Chain): Loader
    requires Open(l) && l.table.Some?
  {
    InTable(l, hook, chain).(chain := Some(hook))
  }

  const BASELINE := [Rule([Established], true), Rule([Loopback], true)]

  lemma ChainOpens(g: Grammar, l: Loader, hook: string)
    requires Open(l) && l.table.Some? && l.chain == None && hook !in l.kernel[l.table.value]
    ensures Line(g, l, ["chain", hook, "{"]) == Some(With(l, hook, Chain(None, true, [])))
  {
    hide ReadRule;
  }

  lemma TypeIsRead(g: Grammar, l: Loader, hook: string, chain: Chain, policy: Action)
    requires Open(l) && l.table.Some?
    ensures Line(g, With(l, hook, chain),
                 ["type", "filter", "hook", hook, "priority", "0;", "policy", VerdictWord(policy) + ";"])
            == Some(With(l, hook, chain.(hook := Some(hook), policy := policy == Allow)))
  {
    hide ReadRule;
    PolicyIsRead(policy);
    var u := With(l, hook, chain);
    var ws := ["type", "filter", "hook", hook, "priority", "0;", "policy", VerdictWord(policy) + ";"];
    assert ws != ["}"] && |ws| == 8;
    Rewritten(l, hook, chain, chain.(hook := Some(hook), policy := policy == Allow));
  }

  lemma PolicyIsRead(policy: Action)
    ensures Policy(VerdictWord(policy) + ";") == Some(policy == Allow)
  {
    assert "accept" + ";" == "accept;" && "drop" + ";" == "drop;";
  }

  /** Writing a chain again replaces it. */
  lemma Rewritten(l: Loader, hook: string, chain: Chain, chain': Chain)
    requires Open(l) && l.table.Some?
    ensures InTable(With(l, hook, chain), hook, chain') == With(l, hook, chain')
    ensures With(l, hook, chain).kernel[l.table.value][hook] == chain
  {
    var t := l.table.value;
    assert l.kernel[t][hook := chain][hook := chain'] == l.kernel[t][hook := chain'];
    assert l.kernel[t := l.kernel[t][hook := chain]][t := l.kernel[t][hook := chain']]
      == l.kernel[t := l.kernel[t][hook := chain']];
  }

  lemma RuleLoads(g: Grammar, l: Loader, hook: string, chain: Chain, ws: seq<string>, r: Rule)
    requires Open(l) && l.table.Some? && ReadRule(g, ws) == Some(r)
    requires |ws| > 0 && ws[0] != "}" && ws[0] != "type"
    ensures Line(g, With(l, hook, chain), ws) == Some(With(l, hook, chain.(rules := chain.rules + [r])))
  {
    hide ReadRule;
    Rewritten(l, hook, chain, chain.(rules := chain.rules + [r]));
  }

  lemma BaselineIsRead(g: Grammar, device: string)
    requires device == "iif" || device == "oif"
    ensures ReadRule(g, ["ct", "state", "established,related", "accept"]) == Some(BASELINE[0])
    ensures ReadRule(g, [device, "\"lo\"", "accept"]) == Some(BASELINE[1])
  {
    hide ReadRule;
    VerdictOnly(g, Allow);
    ReadState(g);
    ReadDevice(g, device);
    MatchThenRule(g, ["ct", "state", "established,related"], ["accept"], Established);
    MatchThenRule(g, [device, "\"lo\""], ["accept"], Loopback);
    assert ["ct", "state", "established,related"] + ["accept"] == ["ct", "state", "established,related", "accept"];
    assert [device, "\"lo\""] + ["accept"] == [device, "\"lo\"", "accept"];
    assert [Established] + [] == [Established] && [Loopback] + [] == [Loopback];
  }

  lemma ReadState(g: Grammar)
    ensures ReadMatch(g, ["ct", "state", "established,related"] + ["accept"]) == Some((Established, 3))
  {}

  lemma ReadDevice(g: Grammar, device: string)
    requires device == "iif" || device == "oif"
    ensures ReadMatch(g, [device, "\"lo\""] + ["accept"]) == Some((Loopback, 2))
  {}

  lemma ChainLineIsWords(hook: string)
    requires hook == "input" || hook == "output"
    ensures AreWords(["chain", hook, "{"]) && AreWords(["}"])
  {
    hide Word;
    Printable("chain");
    Printable(hook);
    Printable("{");
    Printable("}");
  }

  lemma TypeLineIsWords(hook: string, policy: Action)
    requires hook == "input" || hook == "output"
    ensures AreWords(["type", "filter", "hook", hook, "priority", "0;", "policy", VerdictWord(policy) + ";"])
  {
    hide Word;
    Printable("type");
    Printable("filter");
    Printable("hook");
    Printable(hook);
    Printable("priority");
    Printable("0;");
    Printable("policy");
    Printable(VerdictWord(policy) + ";");
  }

  lemma BaselineIsWords(device: string)
    requires device == "iif" || device == "oif"
    ensures AreWords(["ct", "state", "established,related", "accept"])
    ensures AreWords([device, "\"lo\"", "accept"])
  {
    hide Word;
    Printable("ct");
    Printable("state");
    Printable("established,related");
    Printable("accept");
    Printable(device);
    Printable("\"lo\"");
  }

  lemma TableIsWords()
    ensures AreWords(["table", "inet", TABLE]) && AreWords(["delete", "table", "inet", TABLE])
    ensures AreWords(["table", "inet", TABLE, "{"])
  {
    hide Word;
    Printable("table");
    Printable("inet");
    Printable(TABLE);
    Printable("delete");
    Printable("{");
  }

  predicate Hook(hook: string, device: string) {
    (hook == "input" && device == "iif") || (hook == "output" && device == "oif")
  }

  lemma Join2(g: Grammar, l: Loader, m: Loader, a: seq<string>, b: seq<string>)
    requires Open(l) && Load(g, l, a) == Some(m)
    ensures Load(g, l, a + b) == Load(g, m, b)
  {
    LoadInTwo(g, l, a, b);
  }

  /** The opening lines of a chain set its hook and policy and let established and
      local traffic through. */
  lemma HeadLoads(g: Grammar, l: Loader, hook: string, device: string, policy: Action)
    requires Open(l) && l.table.Some? && l.chain == None && hook !in l.kernel[l.table.value]
    requires Hook(hook, device)
    ensures Load(g, l, ChainHead(hook, device, policy))
            == Some(With(l, hook, Chain(Some(hook), policy == Allow, BASELINE)))
  {
    hide Line, Load, Indented, With, ReadRule, VerdictWord, BASELINE, Open;
    BaselineIsTwo();
    var open, typed := Chain(None, true, []), Chain(Some(hook), policy == Allow, []);
    var l1 := With(l, hook, open);
    var l2 := With(l, hook, typed);
    var l3 := With(l, hook, typed.(rules := [BASELINE[0]]));
    Lines(hook, device, policy);
    ChainLineIsWords(hook);
    TypeLineIsWords(hook, policy);
    BaselineIsWords(device);
    BaselineIsRead(g, device);
    WithIsOpen(l, hook, open);
    WithIsOpen(l, hook, typed);
    WithIsOpen(l, hook, typed.(rules := [BASELINE[0]]));
    ChainOpens(g, l, hook);
    TypeIsRead(g, l, hook, open, policy);
    var a := ["chain", hook, "{"];
    var b := ["type", "filter", "hook", hook, "priority", "0;", "policy", VerdictWord(policy) + ";"];
    var c := ["ct", "state", "established,related", "accept"];
    var d := [device, "\"lo\"", "accept"];
    RuleLoads(g, l, hook, typed, c, BASELINE[0]);
    RuleLoads(g, l, hook, typed.(rules := [BASELINE[0]]), d, BASELINE[1]);
    assert [] + [BASELINE[0]] == [BASELINE[0]];
    LoadLine(g, l, 1, a);
    LoadLine(g, l1, 2, b);
    LoadLine(g, l2, 2, c);
    LoadLine(g, l3, 2, d);
    Join2(g, l, l1, [Indented(1, a)], [Indented(2, b)] + ([Indented(2, c)] + [Indented(2, d)]));
    Join2(g, l1, l2, [Indented(2, b)], [Indented(2, c)] + [Indented(2, d)]);
    Join2(g, l2, l3, [Indented(2, c)], [Indented(2, d)]);
  }

  lemma BaselineIsTwo()
    ensures |BASELINE| == 2 && [BASELINE[0]] + [BASELINE[1]] == BASELINE
  {}

  lemma WithIsOpen(l: Loader, hook: string, chain: Chain)
    requires Open(l) && l.table.Some?
    ensures Open(With(l, hook, chain))
  {}

  lemma Lines(hook: string, device: string, policy: Action)
    ensures ChainHead(hook, device, policy) ==
      [Indented(1, ["chain", hook, "{"])]
      + ([Indented(2, ["type", "filter", "hook", hook, "priority", "0;", "policy", VerdictWord(policy) + ";"])]
        + ([Indented(2, ["ct", "state", "established,related", "accept"])]
          + [Indented(2, [device, "\"lo\"", "accept"])]))
  {
    hide Indented, VerdictWord;
  }

  function Meanings(rules: seq<RuleSpec>, d: Direction): seq<Rule> {
    if rules == [] then []
    else Own(rules[0], d) + Meanings(rules[1..], d)
  }

  function Own(r: RuleSpec, d: Direction): seq<Rule> { if r.direction == d then [Meaning(r)] else [] }

  lemma {:induction false} MeaningsOfTwo(a: seq<RuleSpec>, b: seq<RuleSpec>, d: Direction)
    ensures Meanings(a + b, d) == Meanings(a, d) + Meanings(b, d)
  {
    hide Own;
    if a == [] {
      assert a + b == b;
    } else {
      MeaningsOfTwo(a[1..], b, d);
      assert (a + b)[1..] == a[1..] + b && (a + b)[0] == a[0];
    }
  }

  lemma MeaningsOfMore(rules: seq<RuleSpec>, d: Direction)
    requires rules != []
    ensures Meanings(rules, d) == Meanings(rules[..|rules| - 1], d) + Own(rules[|rules| - 1], d)
  {
    hide Own;
    var front, last := rules[..|rules| - 1], [rules[|rules| - 1]];
    assert rules == front + last;
    MeaningsOfTwo(front, last, d);
    assert Meanings(last, d) == Own(last[0], d) + Meanings(last[1..], d) == Own(last[0], d) + [];
  }

  predicate AllPlain(g: Grammar, rules: seq<RuleSpec>) {
    forall i :: 0 <= i < |rules| ==> PlainRule(g, rules[i])
  }

  /** Every rule line begins with a word that cannot close or head a chain. */
  lemma FirstWord(r: RuleSpec)
    ensures var ws := Words(JoinWords(Parts(r))); |ws| > 0 && ws[0] != "}" && ws[0] != "type"
  {
    hide Words, JoinWords, Parts, RustTrim;
    PartsWords(r);
  }

  // What nft reads, rule line by rule line, whether it is what was meant or not.

  predicate AllRead(g: Grammar, rules: seq<RuleSpec>, d: Direction) {
    forall i :: 0 <= i < |rules| && rules[i].direction == d ==> Reading(g, rules[i]).Some?
  }

  function OwnReading(g: Grammar, r: RuleSpec, d: Direction): seq<Rule> {
    if r.direction == d && Reading(g, r).Some? then [Reading(g, r).value] else []
  }

  function ReadIn(g: Grammar, rules: seq<RuleSpec>, d: Direction): seq<Rule> {
    if rules == [] then []
    else ReadIn(g, rules[..|rules| - 1], d) + OwnReading(g, rules[|rules| - 1], d)
  }

  /** Rules that are read as meant. */
  lemma {:induction false} PlainReadsAsMeant(g: Grammar, rules: seq<RuleSpec>, d: Direction)
    requires AllPlain(g, rules)
    ensures AllRead(g, rules, d) && ReadIn(g, rules, d) == Meanings(rules, d)
  {
    hide Reading, Meaning, PlainRule, Meanings;
    NoMeanings(d);
    if rules != [] {
      var front, r := rules[..|rules| - 1], rules[|rules| - 1];
      PlainReadsAsMeant(g, front, d);
      MeaningsOfMore(rules, d);
      RuleIsRead(g, r);
      AllReadMore(g, rules, d);
    }
  }

  lemma NoMeanings(d: Direction)
    ensures Meanings([], d) == []
  {}

  lemma AllReadMore(g: Grammar, rules: seq<RuleSpec>, d: Direction)
    requires rules != []
    ensures var front, r := rules[..|rules| - 1], rules[|rules| - 1];
      AllRead(g, rules, d) <==> AllRead(g, front, d) && (r.direction == d ==> Reading(g, r).Some?)
  {
    hide Reading;
    var front := rules[..|rules| - 1];
    assert rules == front + [rules[|rules| - 1]];
  }

  /** The rule lines of one direction: refused if any of them is, else added as read. */
  lemma {:induction false} RulesLoad(
    g: Grammar, l: Loader, hook: string, chain: Chain, rules: seq<RuleSpec>, d: Direction)
    requires Open(l) && l.table.Some?
    ensures Open(With(l, hook, chain))
    ensures Load(g, With(l, hook, chain), RuleLines(rules, d)) ==
      if AllRead(g, rules, d) then Some(With(l, hook, chain.(rules := chain.rules + ReadIn(g, rules, d)))) else None
  {
    hide Line, Load, Indented, With, Reading, Parts, Open;
    WithIsOpen(l, hook, chain);
    if rules == [] {
      NothingLoads(g, With(l, hook, chain));
      assert chain.rules + [] == chain.rules;
    } else {
      var front, r := rules[..|rules| - 1], rules[|rules| - 1];
      RulesLoad(g, l, hook, chain, front, d);
      AllReadMore(g, rules, d);
      var so := chain.(rules := chain.rules + ReadIn(g, front, d));
      if r.direction != d {
        assert RuleLines(rules, d) == RuleLines(front, d) && ReadIn(g, rules, d) == ReadIn(g, front, d);
      } else if AllRead(g, front, d) {
        RuleLineLoads(g, l, hook, so, r);
        WithIsOpen(l, hook, so);
        Join2(g, With(l, hook, chain), With(l, hook, so), RuleLines(front, d), [Indented(2, Parts(r))]);
        assert Reading(g, r).Some? ==> so.rules + [Reading(g, r).value] == chain.rules + ReadIn(g, rules, d);
      } else {
        RefusedStays(g, With(l, hook, chain), RuleLines(front, d), [Indented(2, Parts(r))]);
      }
    }
  }

  lemma NothingLoads(g: Grammar, l: Loader)
    requires Open(l)
    ensures Load(g, l, []) == Some(l)
  {}

  lemma RefusedStays(g: Grammar, l: Loader, a: seq<string>, b: seq<string>)
    requires Open(l) && Load(g, l, a) == None
    ensures Load(g, l, a + b) == None
  {
    LoadInTwo(g, l, a, b);
  }

  lemma RuleLineLoads(g: Grammar, l: Loader, hook: string, chain: Chain, r: RuleSpec)
    requires Open(l) && l.table.Some?
    ensures Open(With(l, hook, chain))
    ensures Load(g, With(l, hook, chain), [Indented(2, Parts(r))]) ==
      match Reading(g, r)
      case Some(x) => Some(With(l, hook, chain.(rules := chain.rules + [x])))
      case None => None
  {
    hide Line, Load, Indented, With, ReadRule, Words, JoinWords, Parts, Open, AllWords;
    var ws := Words(JoinWords(Parts(r)));
    WithIsOpen(l, hook, chain);
    IndentedWords(2, Parts(r));
    WordsOfJoin(Parts(r));
    FirstWord(r);
    LoadOne(g, With(l, hook, chain), Indented(2, Parts(r)));
    if Reading(g, r).Some? {
      RuleLoads(g, l, hook, chain, ws, Reading(g, r).value);
    } else {
      RuleRefused(g, l, hook, chain, ws);
    }
  }

  lemma RuleRefused(g: Grammar, l: Loader, hook: string, chain: Chain, ws: seq<string>)
    requires Open(l) && l.table.Some? && ReadRule(g, ws) == None
    requires |ws| > 0 && ws[0] != "}" && ws[0] != "type"
    ensures Line(g, With(l, hook, chain), ws) == None
  {
    hide ReadRule;
  }

  /** The chain that the lines leave, its rules as read. */
  function Chained(hook: string, policy: Action, body: seq<Rule>): Chain {
    Chain(Some(hook), policy == Allow, BASELINE + body)
  }

  function Compiled(hook: string, policy: Action, rules: seq<RuleSpec>, d: Direction): Chain {
    Chained(hook, policy, Meanings(rules, d))
  }

  lemma ChainLoads(
    g: Grammar, l: Loader, hook: string, device: string, policy: Action, rules: seq<RuleSpec>, d: Direction)
    requires Open(l) && l.table.Some? && l.chain == None && hook !in l.kernel[l.table.value]
    requires Hook(hook, device)
    ensures Load(g, l, ChainHead(hook, device, policy) + RuleLines(rules, d) + [CHAIN_END]) ==
      if AllRead(g, rules, d) then Some(InTable(l, hook, Chained(hook, policy, ReadIn(g, rules, d)))) else None
  {
    hide Line, Load, Indented, With, Open, ReadIn, RuleLines, ChainHead, BASELINE, AllRead;
    var begun := Chain(Some(hook), policy == Allow, BASELINE);
    var done := Chained(hook, policy, ReadIn(g, rules, d));
    var head, body := ChainHead(hook, device, policy), RuleLines(rules, d);
    HeadLoads(g, l, hook, device, policy);
    RulesLoad(g, l, hook, begun, rules, d);
    WithIsOpen(l, hook, begun);
    Join2(g, l, With(l, hook, begun), head, body);
    if AllRead(g, rules, d) {
      WithIsOpen(l, hook, done);
      ChainEnds(g, l, hook, done);
      Join2(g, l, With(l, hook, done), head + body, [CHAIN_END]);
    } else {
      RefusedStays(g, l, head + body, [CHAIN_END]);
    }
  }

  lemma ChainEnds(g: Grammar, l: Loader, hook: string, chain: Chain)
    requires Open(l) && l.table.Some? && l.chain == None
    ensures Open(With(l, hook, chain))
    ensures Load(g, With(l, hook, chain), [CHAIN_END]) == Some(InTable(l, hook, chain))
  {
    hide Load, Indented;
    WithIsOpen(l, hook, chain);
    ChainLineIsWords("input");
    LoadLine(g, With(l, hook, chain), 1, ["}"]);
  }

  /** The table as the ruleset leaves it. */
  function TableOf(spec: Spec): Table {
    map["input" := Compiled("input", spec.defaultInbound, spec.rules, Inbound),
        "output" := Compiled("output", spec.defaultOutbound, spec.rules, Outbound)]
  }

  lemma TableStarts(g: Grammar, kernel: map<string, Table>)
    ensures Load(g, Loader(kernel, None, None), HEAD) == Some(Loader(kernel[TABLE := map[]], Some(TABLE), None))
  {
    hide Load, Indented, Line;
    var l := Loader(kernel, None, None);
    var l1 := Loader(if TABLE in kernel then kernel else kernel[TABLE := map[]], None, None);
    var l2 := Loader(kernel - {TABLE}, None, None);
    var l3 := Loader(kernel[TABLE := map[]], Some(TABLE), None);
    var a, b := ["table", "inet", TABLE], ["delete", "table", "inet", TABLE];
    var c := ["table", "inet", TABLE, "{"];
    TableIsWords();
    LoadLine(g, l, 0, a);
    LoadLine(g, l1, 0, b);
    LoadLine(g, l2, 0, c);
    TopLines(g, kernel);
    Join2(g, l, l1, [Indented(0, a)], [Indented(0, b)] + [Indented(0, c)]);
    Join2(g, l1, l2, [Indented(0, b)], [Indented(0, c)]);
    assert HEAD == [Indented(0, a)] + ([Indented(0, b)] + [Indented(0, c)]);
  }

  lemma TopLines(g: Grammar, kernel: map<string, Table>)
    ensures var l1 := Loader(if TABLE in kernel then kernel else kernel[TABLE := map[]], None, None);
      && Line(g, Loader(kernel, None, None), ["table", "inet", TABLE]) == Some(l1)
      && Line(g, l1, ["delete", "table", "inet", TABLE]) == Some(Loader(kernel - {TABLE}, None, None))
    ensures Line(g, Loader(kernel - {TABLE}, None, None), ["table", "inet", TABLE, "{"])
            == Some(Loader(kernel[TABLE := map[]], Some(TABLE), None))
  {
    assert kernel[TABLE := map[]] - {TABLE} == kernel - {TABLE};
    assert (kernel - {TABLE})[TABLE := map[]] == kernel[TABLE := map[]];
  }

  /** The table as nft reads it. */
  function TableRead(g: Grammar, spec: Spec): Table {
    map["input" := Chained("input", spec.defaultInbound, ReadIn(g, spec.rules, Inbound)),
        "output" := Chained("output", spec.defaultOutbound, ReadIn(g, spec.rules, Outbound))]
  }

  predicate EveryRuleRead(g: Grammar, rules: seq<RuleSpec>) {
    AllRead(g, rules, Inbound) && AllRead(g, rules, Outbound)
  }

  function ChainLines(hook: string, device: string, policy: Action, rules: seq<RuleSpec>, d: Direction): seq<string> {
    ChainHead(hook, device, policy) + RuleLines(rules, d) + [CHAIN_END]
  }

  /** Whatever the kernel held, loading the ruleset's lines is refused if a rule line is,
      and else replaces this table, whole, and leaves every other one alone. */
  lemma RulesetLoads(g: Grammar, spec: Spec, kernel: map<string, Table>)
    ensures Load(g, Loader(kernel, None, None), RulesetLines(spec)) ==
      if EveryRuleRead(g, spec.rules) then Some(Loader(kernel[TABLE := TableRead(g, spec)], None, None)) else None
  {
    hide Load, Indented, Line, ChainHead, RuleLines, ReadIn, HEAD, CHAIN_END, AllRead, Chained;
    var l0 := Loader(kernel[TABLE := map[]], Some(TABLE), None);
    var l1 := InTable(l0, "input", Chained("input", spec.defaultInbound, ReadIn(g, spec.rules, Inbound)));
    var l2 := InTable(l1, "output", Chained("output", spec.defaultOutbound, ReadIn(g, spec.rules, Outbound)));
    var i := ChainLines("input", "iif", spec.defaultInbound, spec.rules, Inbound);
    var o := ChainLines("output", "oif", spec.defaultOutbound, spec.rules, Outbound);
    var end := [Indented(0, ["}"])];
    TableStarts(g, kernel);
    ChainLoads(g, l0, "input", "iif", spec.defaultInbound, spec.rules, Inbound);
    assert "output" != "input" by { assert "output"[0] != "input"[0]; }
    var start := Loader(kernel, None, None);
    Join2(g, start, l0, HEAD, i);
    assert RulesetLines(spec) == HEAD + i + o + end;
    if !AllRead(g, spec.rules, Inbound) {
      RefusedStays(g, start, HEAD + i, o);
      RefusedStays(g, start, HEAD + i + o, end);
    } else {
      ChainLoads(g, l1, "output", "oif", spec.defaultOutbound, spec.rules, Outbound);
      Join2(g, start, l1, HEAD + i, o);
      if !AllRead(g, spec.rules, Outbound) {
        RefusedStays(g, start, HEAD + i + o, end);
      } else {
        TableEnds(g, l2);
        Join2(g, start, l2, HEAD + i + o, end);
        assert l2.kernel == kernel[TABLE := TableRead(g, spec)];
      }
    }
  }

  lemma TableEnds(g: Grammar, l: Loader)
    requires Open(l) && l.table.Some? && l.chain == None
    ensures Load(g, l, [Indented(0, ["}"])]) == Some(l.(table := None))
  {
    hide Load, Indented;
    ChainLineIsWords("input");
    LoadLine(g, l, 0, ["}"]);
  }

  // ------------------------------------------------------------ text and lines

  /** No line break of any kind inside. */
  predicate Unbroken(s: string) { forall i :: 0 <= i < |s| ==> s[i] != '\n' && s[i] != '\r' }

  lemma {:induction false} JoinUnbroken(parts: seq<string>)
    requires forall i :: 0 <= i < |parts| ==> Unbroken(parts[i])
    ensures Unbroken(JoinWords(parts))
  {
    if |parts| > 1 { JoinUnbroken(parts[1..]); }
  }

  lemma {:induction false} IndentedUnbroken(tabs: nat, parts: seq<string>)
    requires forall i :: 0 <= i < |parts| ==> Unbroken(parts[i])
    ensures Unbroken(Indented(tabs, parts))
  {
    hide JoinWords;
    if tabs == 0 {
      JoinUnbroken(parts);
      assert Indented(0, parts) == JoinWords(parts);
    } else {
      IndentedUnbroken(tabs - 1, parts);
      assert Indented(tabs, parts) == "\t" + Indented(tabs - 1, parts);
    }
  }

  lemma WordsUnbroken(tabs: nat, ws: seq<string>)
    requires AreWords(ws)
    ensures Unbroken(Indented(tabs, ws))
  {
    hide Indented;
    forall i | 0 <= i < |ws| ensures Unbroken(ws[i]) { assert Word(ws[i]); }
    IndentedUnbroken(tabs, ws);
  }

  predicate AllUnbroken(lines: seq<string>) { forall i :: 0 <= i < |lines| ==> Unbroken(lines[i]) }

  lemma {:induction false} RuleLinesUnbroken(g: Grammar, rules: seq<RuleSpec>, d: Direction)
    requires AllPlain(g, rules)
    ensures AllUnbroken(RuleLines(rules, d))
  {
    hide Indented, Parts, Unbroken, PlainRule;
    if rules != [] {
      RuleLinesUnbroken(g, rules[..|rules| - 1], d);
      PartsUnbroken(g, rules[|rules| - 1]);
      IndentedUnbroken(2, Parts(rules[|rules| - 1]));
    }
  }

  lemma UnbrokenAround(a: string, blank: char, b: string)
    requires Unbroken(a) && IsBlank(blank) && Unbroken(b)
    ensures Unbroken(a + [blank] + b)
  {}

  lemma AreWordsParts(a: seq<string>, b: seq<string>)
    requires AreWords(a + b)
    ensures AreWords(a) && AreWords(b)
  {
    hide Word;
    assert forall i :: 0 <= i < |a| ==> (a + b)[i] == a[i];
    assert forall i :: 0 <= i < |b| ==> (a + b)[|a| + i] == b[i];
  }

  /** Blanks and words make no line break. */
  lemma {:induction false} WordsKeepLine(s: string)
    requires AreWords(Words(s))
    ensures Unbroken(s)
    decreases |s|
  {
    hide Word, Words, Unbroken;
    var i := WordEnd(s);
    var first := if i == 0 then [] else [s[..i]];
    var rest := if i == |s| then [] else Words(s[i + 1..]);
    WordsAt(s, i);
    AreWordsParts(first, rest);
    FixedUnbroken();
    if i > 0 {
      assert first[0] == s[..i];
      WordUnbroken(s[..i]);
    }
    if i < |s| {
      WordsKeepLine(s[i + 1..]);
      UnbrokenAround(s[..i], s[i], s[i + 1..]);
      assert s == s[..i] + [s[i]] + s[i + 1..];
    } else {
      assert s[..i] == s;
    }
  }

  lemma PhraseUnbroken(s: string)
    requires PhraseWords(Words(s))
    ensures Unbroken(s)
  {
    WordsKeepLine(s);
  }

  lemma PartsUnbroken(g: Grammar, r: RuleSpec)
    requires PlainRule(g, r)
    ensures forall i :: 0 <= i < |Parts(r)| ==> Unbroken(Parts(r)[i])
  {
    hide JoinWords, VerdictWord, Unbroken, Word, Words, RustTrim, PhraseWords;
    VerdictIsWord(r.action);
    WordUnbroken(VerdictWord(r.action));
    FixedUnbroken();
    if HasNet(r) { PhraseUnbroken(r.cidr); }
    if (r.protocol == Tcp || r.protocol == Udp) && HasPort(r) { PhraseUnbroken(RustTrim(r.port.value)); }
    assert forall i :: 0 <= i < |NetWords(r)| ==> Unbroken(NetWords(r)[i]);
    assert forall i :: 0 <= i < |ProtocolWords(r)| ==> Unbroken(ProtocolWords(r)[i]);
    JoinUnbroken(NetWords(r));
    JoinUnbroken(ProtocolWords(r));
  }

  lemma FixedUnbroken()
    ensures Unbroken("ip") && Unbroken("saddr") && Unbroken("daddr") && Unbroken("tcp") && Unbroken("udp")
    ensures Unbroken("dport") && Unbroken("meta") && Unbroken("l4proto")
    ensures Unbroken("{") && Unbroken("icmp,") && Unbroken("icmpv6") && Unbroken("}") && Unbroken("")
  {}

  lemma WordUnbroken(w: string)
    requires Word(w)
    ensures Unbroken(w)
  {}

  lemma LinesUnbroken(g: Grammar, spec: Spec)
    requires AllPlain(g, spec.rules)
    ensures AllUnbroken(RulesetLines(spec))
  {
    hide Indented, RuleLines, Unbroken, AllPlain, VerdictWord;
    TableIsWords();
    ChainLineIsWords("input");
    ChainLineIsWords("output");
    WordsUnbroken(0, ["table", "inet", TABLE]);
    WordsUnbroken(0, ["delete", "table", "inet", TABLE]);
    WordsUnbroken(0, ["table", "inet", TABLE, "{"]);
    WordsUnbroken(0, ["}"]);
    WordsUnbroken(1, ["}"]);
    HeadUnbroken("input", "iif", spec.defaultInbound);
    HeadUnbroken("output", "oif", spec.defaultOutbound);
    RuleLinesUnbroken(g, spec.rules, Inbound);
    RuleLinesUnbroken(g, spec.rules, Outbound);
  }

  lemma HeadUnbroken(hook: string, device: string, policy: Action)
    requires Hook(hook, device)
    ensures AllUnbroken(ChainHead(hook, device, policy))
  {
    hide Indented, Unbroken, VerdictWord;
    ChainLineIsWords(hook);
    TypeLineIsWords(hook, policy);
    BaselineIsWords(device);
    WordsUnbroken(1, ["chain", hook, "{"]);
    WordsUnbroken(2, ["type", "filter", "hook", hook, "priority", "0;", "policy", VerdictWord(policy) + ";"]);
    WordsUnbroken(2, ["ct", "state", "established,related", "accept"]);
    WordsUnbroken(2, [device, "\"lo\"", "accept"]);
  }

  lemma {:induction false} SplitOfText(lines: seq<string>)
    requires AllUnbroken(lines)
    ensures SplitLines(TextOf(lines)) == lines + [""]
  {
    if lines == [] {
      assert SplitLines("") == [""];
    } else {
      var rest := lines[1..];
      TextOfTwo([lines[0]], rest);
      assert lines == [lines[0]] + rest;
      assert TextOf([lines[0]]) == lines[0] + "\n" by { TextOfMore([], lines[0]); assert [] + [lines[0]] == [lines[0]]; }
      assert TextOf(lines) == lines[0] + "\n" + TextOf(rest);
      assert Unbroken(lines[0]);
      SplitFirst(lines[0], TextOf(rest));
      SplitOfText(rest);
    }
  }

  /** What nft makes of a text. */
  function Apply(g: Grammar, kernel: map<string, Table>, text: string): map<string, Table> {
    match Load(g, Loader(kernel, None, None), SplitLines(text))
    case Some(l) => if l.table == None then l.kernel else kernel
    case None => kernel
  }

  /** A text without stray line breaks is applied whole, every rule as it is read, or
      not at all: one rule line that nft cannot read, and the kernel keeps what it had. */
  lemma AppliedOrRefused(g: Grammar, spec: Spec, kernel: map<string, Table>)
    requires AllUnbroken(RulesetLines(spec))
    ensures Apply(g, kernel, TextOf(RulesetLines(spec))) ==
      if EveryRuleRead(g, spec.rules) then kernel[TABLE := TableRead(g, spec)] else kernel
  {
    hide Load, RulesetLines, TextOf, EveryRuleRead, Words, Line, TableRead, AllUnbroken;
    var start := Loader(kernel, None, None);
    SplitOfText(RulesetLines(spec));
    RulesetLoads(g, spec, kernel);
    if EveryRuleRead(g, spec.rules) {
      var end := Loader(kernel[TABLE := TableRead(g, spec)], None, None);
      Join2(g, start, end, RulesetLines(spec), [""]);
      EmptyLine(g, end);
    } else {
      RefusedStays(g, start, RulesetLines(spec), [""]);
    }
  }

  /** Applying the text of plain rules replaces the agent's own table, whatever it was,
      and no other; so applying it again changes nothing. */
  lemma AppliedExactly(g: Grammar, spec: Spec, kernel: map<string, Table>)
    requires AllPlain(g, spec.rules)
    ensures Apply(g, kernel, TextOf(RulesetLines(spec))) == kernel[TABLE := TableOf(spec)]
  {
    hide RulesetLines, TextOf, AllPlain, Apply, AllRead, ReadIn, Meanings;
    LinesUnbroken(g, spec);
    AppliedOrRefused(g, spec, kernel);
    PlainReadsAsMeant(g, spec.rules, Inbound);
    PlainReadsAsMeant(g, spec.rules, Outbound);
  }

  lemma EmptyLine(g: Grammar, l: Loader)
    requires Open(l)
    ensures Load(g, l, [""]) == Some(l)
  {
    NoWords();
    LoadOne(g, l, "");
  }
}
