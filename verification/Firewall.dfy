/** The firewall compiler. */
module Firewall {
  // The firewall compiler: the worker turns rule rows into a spec, the agent turns
  // the spec into a ruleset for nft.

  import opened Text
  import opened Options
  import opened Nftables

  // ------------------------------------------------------- from rows to a spec

  datatype Row = Row(
    direction: string, action: string, protocol: string, port: Option<string>, cidr: string,
    comment: Option<string>, position: int)

  datatype FirewallRow = FirewallRow(id: string, defaultInbound: string, defaultOutbound: string)

  datatype Direction = Inbound | Outbound
  datatype Action = Allow | Deny
  datatype Proto = Tcp | Udp | Icmp | Any

  datatype RuleSpec = RuleSpec(
    direction: Direction, action: Action, protocol: Proto, port: Option<string>, cidr: string,
    comment: Option<string>)

  datatype Spec = Spec(firewallId: string, defaultInbound: Action, defaultOutbound: Action, rules: seq<RuleSpec>)

  const ANYWHERE := "0.0.0.0/0"

  function NormalizeProtocol(p: string): Proto {
    if p == "udp" then Udp else if p == "icmp" then Icmp else if p == "any" then Any else Tcp
  }

  function RuleOf(r: Row): RuleSpec {
    RuleSpec(
      if r.direction == "outbound" then Outbound else Inbound,
      if r.action == "deny" then Deny else Allow,
      NormalizeProtocol(r.protocol), r.port, if r.cidr == "" then ANYWHERE else r.cidr, r.comment)
  }

  function Insert(r: Row, rows: seq<Row>): seq<Row> {
    if rows == [] || r.position <= rows[0].position then [r] + rows else [rows[0]] + Insert(r, rows[1..])
  }

  /** The stable sort by position. */
  function ByPosition(rows: seq<Row>): seq<Row> {
    if rows == [] then [] else Insert(rows[0], ByPosition(rows[1..]))
  }

  function RulesOf(rows: seq<Row>): (r: seq<RuleSpec>)
    ensures |r| == |rows| && forall i :: 0 <= i < |rows| ==> r[i] == RuleOf(rows[i])
  {
    if rows == [] then [] else [RuleOf(rows[0])] + RulesOf(rows[1..])
  }

  /** `buildFirewallSpec` */
  function BuildFirewallSpec(f: FirewallRow, rows: seq<Row>): Spec {
    Spec(f.id, if f.defaultInbound == "allow" then Allow else Deny,
         if f.defaultOutbound == "deny" then Deny else Allow, RulesOf(ByPosition(rows)))
  }

  /** `buildFlushSpec` */
  function BuildFlushSpec(id: string): Spec { Spec(id, Allow, Allow, []) }

  // ---------------------------------------------------- from a spec to a ruleset

  const TABLE := "yourstack_fw"

  function VerdictWord(a: Action): string { if a == Allow then "accept" else "drop" }

  function AddressWord(d: Direction): string { if d == Inbound then "saddr" else "daddr" }

  predicate HasNet(r: RuleSpec) { r.cidr != ANYWHERE && r.cidr != "" }

  predicate HasPort(r: RuleSpec) { r.port.Some? && r.port.value != "" }

  /** White space by Unicode's property, which `str::trim` removes; JavaScript's differs
      in two characters. */
  predicate IsRustSpace(c: char) { (IsSpace(c) && c != '\U{FEFF}') || c == '\U{0085}' }

  function RustTrimStart(s: string): string { if s != "" && IsRustSpace(s[0]) then RustTrimStart(s[1..]) else s }

  function RustTrimEnd(s: string): string {
    if s != "" && IsRustSpace(s[|s| - 1]) then RustTrimEnd(s[..|s| - 1]) else s
  }

  function RustTrim(s: string): string { RustTrimEnd(RustTrimStart(s)) }

  function ProtocolWords(r: RuleSpec): seq<string> {
    match r.protocol
    case Tcp => if HasPort(r) then ["tcp", "dport", RustTrim(r.port.value)] else ["meta", "l4proto", "tcp"]
    case Udp => if HasPort(r) then ["udp", "dport", RustTrim(r.port.value)] else ["meta", "l4proto", "udp"]
    case Icmp => ["meta", "l4proto", "{", "icmp,", "icmpv6", "}"]
    case Any => []
  }

  function NetWords(r: RuleSpec): seq<string> {
    if HasNet(r) then ["ip", AddressWord(r.direction), r.cidr] else []
  }

  /** The pieces of one rule line; a piece may be several words. */
  function Parts(r: RuleSpec): seq<string> {
    (if HasNet(r) then [JoinWords(NetWords(r))] else [])
    + (if r.protocol == Any then [] else [JoinWords(ProtocolWords(r))])
    + [VerdictWord(r.action)]
  }

  /** `render_firewall_rule` */
  method RenderFirewallRule(r: RuleSpec) returns (line: string)
    ensures line == JoinWords(Parts(r))
  {
    hide JoinWords, RustTrim;
    var addrKw := match r.direction case Inbound => "saddr" case Outbound => "daddr";
    var parts: seq<string> := [];
    if r.cidr != ANYWHERE && r.cidr != "" {
      parts := parts + [JoinWords(["ip", addrKw, r.cidr])];
    }
    match r.protocol {
      case Tcp =>
        if r.port.Some? && r.port.value != "" {
          parts := parts + [JoinWords(["tcp", "dport", RustTrim(r.port.value)])];
        } else {
          parts := parts + [JoinWords(["meta", "l4proto", "tcp"])];
        }
      case Udp =>
        if r.port.Some? && r.port.value != "" {
          parts := parts + [JoinWords(["udp", "dport", RustTrim(r.port.value)])];
        } else {
          parts := parts + [JoinWords(["meta", "l4proto", "udp"])];
        }
      case Icmp => parts := parts + [JoinWords(["meta", "l4proto", "{", "icmp,", "icmpv6", "}"])];
      case Any =>
    }
    parts := parts + [VerdictWord(r.action)];
    assert parts == Parts(r);
    line := JoinWords(parts);
  }

  function Indented(tabs: nat, ws: seq<string>): string { Tabs(tabs) + JoinWords(ws) }

  function Tabs(n: nat): string { if n == 0 then "" else "\t" + Tabs(n - 1) }

  function RuleLines(rules: seq<RuleSpec>, d: Direction): seq<string> {
    if rules == [] then []
    else
      RuleLines(rules[..|rules| - 1], d)
      + (var r := rules[|rules| - 1]; if r.direction == d then [Indented(2, Parts(r))] else [])
  }

  function ChainHead(hook: string, device: string, policy: Action): seq<string> {
    [Indented(1, ["chain", hook, "{"]),
     Indented(2, ["type", "filter", "hook", hook, "priority", "0;", "policy", VerdictWord(policy) + ";"]),
     Indented(2, ["ct", "state", "established,related", "accept"]),
     Indented(2, [device, "\"lo\"", "accept"])]
  }

  const CHAIN_END := Indented(1, ["}"])

  const HEAD := [
    Indented(0, ["table", "inet", TABLE]), Indented(0, ["delete", "table", "inet", TABLE]),
    Indented(0, ["table", "inet", TABLE, "{"])]

  function RulesetLines(spec: Spec): seq<string> {
    HEAD
    + (ChainHead("input", "iif", spec.defaultInbound) + RuleLines(spec.rules, Inbound) + [CHAIN_END])
    + (ChainHead("output", "oif", spec.defaultOutbound) + RuleLines(spec.rules, Outbound) + [CHAIN_END])
    + [Indented(0, ["}"])]
  }

  /** Every line followed by a line feed. */
  function TextOf(lines: seq<string>): string {
    if lines == [] then "" else TextOf(lines[..|lines| - 1]) + lines[|lines| - 1] + "\n"
  }

  lemma TextOfMore(a: seq<string>, l: string)
    ensures TextOf(a + [l]) == TextOf(a) + l + "\n"
  {
    assert (a + [l])[..|a|] == a;
  }

  lemma {:induction false} TextOfTwo(a: seq<string>, b: seq<string>)
    ensures TextOf(a + b) == TextOf(a) + TextOf(b)
  {
    if b == [] {
      assert a + b == a;
    } else {
      var front, last := b[..|b| - 1], b[|b| - 1];
      TextOfTwo(a, front);
      assert a + b == (a + front) + [last];
      TextOfMore(a + front, last);
    }
  }

  /** `render_nftables` */
  method RenderNftables(spec: Spec) returns (s: string)
    ensures s == TextOf(RulesetLines(spec))
  {
    hide Indented, ChainHead, RuleLines, TextOf;
    s := TextOf(HEAD);
    s := s + TextOf(ChainHead("input", "iif", spec.defaultInbound));
    s := AppendRules(s, spec.rules, Inbound);
    s := s + TextOf([CHAIN_END]);
    s := s + TextOf(ChainHead("output", "oif", spec.defaultOutbound));
    s := AppendRules(s, spec.rules, Outbound);
    s := s + TextOf([CHAIN_END]);
    s := s + TextOf([Indented(0, ["}"])]);
    TextOfAll(spec);
  }

  lemma TextOfAll(spec: Spec)
    ensures TextOf(RulesetLines(spec)) ==
      TextOf(HEAD)
      + TextOf(ChainHead("input", "iif", spec.defaultInbound)) + TextOf(RuleLines(spec.rules, Inbound))
      + TextOf([CHAIN_END])
      + TextOf(ChainHead("output", "oif", spec.defaultOutbound)) + TextOf(RuleLines(spec.rules, Outbound))
      + TextOf([CHAIN_END])
      + TextOf([Indented(0, ["}"])])
  {
    hide TextOf, Indented, ChainHead, RuleLines;
    TextOfChain(ChainHead("input", "iif", spec.defaultInbound), RuleLines(spec.rules, Inbound));
    TextOfChain(ChainHead("output", "oif", spec.defaultOutbound), RuleLines(spec.rules, Outbound));
    var i := ChainHead("input", "iif", spec.defaultInbound) + RuleLines(spec.rules, Inbound) + [CHAIN_END];
    var o := ChainHead("output", "oif", spec.defaultOutbound) + RuleLines(spec.rules, Outbound) + [CHAIN_END];
    TextOfTwo(HEAD, i);
    TextOfTwo(HEAD + i, o);
    TextOfTwo(HEAD + i + o, [Indented(0, ["}"])]);
  }

  lemma TextOfChain(head: seq<string>, rules: seq<string>)
    ensures TextOf(head + rules + [CHAIN_END]) == TextOf(head) + TextOf(rules) + TextOf([CHAIN_END])
  {
    hide TextOf;
    TextOfTwo(head, rules);
    TextOfTwo(head + rules, [CHAIN_END]);
  }

  method AppendRules(before: string, rules: seq<RuleSpec>, d: Direction) returns (s: string)
    ensures s == before + TextOf(RuleLines(rules, d))
  {
    hide TextOf, RuleLines, Parts;
    s := before;
    NoRuleLines(d);
    for i := 0 to |rules|
      invariant s == before + TextOf(RuleLines(rules[..i], d))
    {
      NextRuleLine(rules, i, d);
      if rules[i].direction == d {
        var line := RenderFirewallRule(rules[i]);
        s := s + (Tabs(2) + line) + "\n";
      }
    }
    assert rules[..|rules|] == rules;
  }

  lemma NoRuleLines(d: Direction)
    ensures TextOf(RuleLines([], d)) == ""
  {}

  lemma NextRuleLine(rules: seq<RuleSpec>, i: nat, d: Direction)
    requires i < |rules|
    ensures TextOf(RuleLines(rules[..i + 1], d)) ==
      if rules[i].direction == d then TextOf(RuleLines(rules[..i], d)) + Indented(2, Parts(rules[i])) + "\n"
      else TextOf(RuleLines(rules[..i], d))
  {
    hide TextOf, Parts, Indented;
    assert rules[..i + 1][..i] == rules[..i];
    assert RuleLines(rules[..i], d) + [] == RuleLines(rules[..i], d);
    TextOfMore(RuleLines(rules[..i], d), Indented(2, Parts(rules[i])));
  }
}
