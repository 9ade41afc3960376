/** What the firewall decides. */
module FirewallMeaning {
  import opened Text
  import opened Options
  import opened Nftables
  import opened Firewall
  import opened FirewallText

  // --------------------------------------------------------- what the rows mean

  /** Whether a row, as it is stored, speaks about a packet in its direction: an
      unknown direction means inbound, an unknown protocol tcp; no address or the
      catch-all means every packet; ports count for tcp and udp only. */
  predicate Concerns(env: Env, row: Row, d: Direction, p: Packet) {
    && (d == Outbound <==> row.direction == "outbound")
    && (row.cidr != "" && row.cidr != "0.0.0.0/0" ==>
          p.ip4 && env.inNet(Words(row.cidr), if d == Inbound then p.source else p.destination))
    && (if row.protocol == "any" then true
        else if row.protocol == "icmp" then p.proto == "icmp" || p.proto == "icmpv6"
        else
          && p.proto == (if row.protocol == "udp" then "udp" else "tcp")
          && (row.port != None && row.port != Some("") ==> env.inPorts(Words(RustTrim(row.port.value)), p.port)))
  }

  /** The row that decides: of those that speak about the packet, the one with the
      least position; among equal positions the one stored first. */
  ghost predicate Decides(env: Env, rows: seq<Row>, k: int, d: Direction, p: Packet) {
    && 0 <= k < |rows| && Concerns(env, rows[k], d, p)
    && forall j :: 0 <= j < |rows| && Concerns(env, rows[j], d, p) ==>
         rows[k].position < rows[j].position || (rows[k].position == rows[j].position && k <= j)
  }

  /** The first of the rows, in the order given, that speaks about the packet. */
  function FirstOf(env: Env, rows: seq<Row>, d: Direction, p: Packet): Option<Row> {
    if rows == [] then None
    else if Concerns(env, rows[0], d, p) then Some(rows[0])
    else FirstOf(env, rows[1..], d, p)
  }

  lemma MeaningConcerns(env: Env, row: Row, d: Direction, p: Packet)
    requires RuleOf(row).direction == d
    ensures AllHold(env, Meaning(RuleOf(row)).matches, p) <==> Concerns(env, row, d, p)
  {
    hide RustTrim;
    var r := RuleOf(row);
    var ms := NetMatch(r) + ProtocolMatch(r);
    assert HasNet(r) ==> ms[0] == NetMatch(r)[0];
    assert r.protocol != Any ==> ms[|NetMatch(r)|] == ProtocolMatch(r)[0];
  }

  /** The rules of one direction, evaluated in order. */
  lemma {:induction false} RulesDecide(env: Env, rows: seq<Row>, d: Direction, policy: bool, p: Packet)
    ensures Accepts(env, Meanings(RulesOf(rows), d), policy, p) ==
      match FirstOf(env, rows, d, p) case Some(row) => RuleOf(row).action == Allow case None => policy
  {
    hide AllHold, Concerns, Meaning, RuleOf;
    if rows != [] {
      RulesDecide(env, rows[1..], d, policy, p);
      assert RulesOf(rows)[1..] == RulesOf(rows[1..]);
      var r := RuleOf(rows[0]);
      WrongWay(env, rows[0], d, p);
      if r.direction == d {
        MeaningConcerns(env, rows[0], d, p);
        AllowMeans(r);
        assert ([Meaning(r)] + Meanings(RulesOf(rows[1..]), d))[1..] == Meanings(RulesOf(rows[1..]), d);
      } else {
        assert [] + Meanings(RulesOf(rows[1..]), d) == Meanings(RulesOf(rows[1..]), d);
      }
    }
  }

  lemma AllowMeans(r: RuleSpec)
    ensures Meaning(r).accept == (r.action == Allow)
  {}

  lemma WrongWay(env: Env, row: Row, d: Direction, p: Packet)
    ensures Concerns(env, row, d, p) ==> RuleOf(row).direction == d
  {}

  // ----------------------------------------------------------------- the sort

  predicate Ascending(rows: seq<Row>) {
    forall i, j :: 0 <= i < j < |rows| ==> rows[i].position <= rows[j].position
  }

  lemma {:induction false} InsertMembers(r: Row, rows: seq<Row>)
    ensures forall x :: x in Insert(r, rows) ==> x == r || x in rows
  {
    if !(rows == [] || r.position <= rows[0].position) {
      InsertMembers(r, rows[1..]);
    }
  }

  lemma {:induction false} InsertAscends(r: Row, rows: seq<Row>)
    requires Ascending(rows)
    ensures Ascending(Insert(r, rows))
  {
    if !(rows == [] || r.position <= rows[0].position) {
      var tail := rows[1..];
      InsertAscends(r, tail);
      InsertMembers(r, tail);
      FirstBelow(rows[0], Insert(r, tail), r, tail);
    }
  }

  lemma FirstBelow(first: Row, rest: seq<Row>, r: Row, tail: seq<Row>)
    requires Ascending(rest) && first.position <= r.position
    requires forall x :: x in rest ==> x == r || x in tail
    requires forall i :: 0 <= i < |tail| ==> first.position <= tail[i].position
    ensures Ascending([first] + rest)
  {
    forall i | 0 <= i < |rest| ensures first.position <= rest[i].position {
      assert rest[i] in rest;
    }
  }

  lemma {:induction false} InsertFirst(env: Env, r: Row, rows: seq<Row>, d: Direction, p: Packet)
    requires Ascending(rows)
    ensures FirstOf(env, Insert(r, rows), d, p) ==
      var f := FirstOf(env, rows, d, p);
      if Concerns(env, r, d, p) && (f == None || r.position <= f.value.position) then Some(r) else f
  {
    hide Concerns;
    FirstIsMember(env, rows, d, p);
    if !(rows == [] || r.position <= rows[0].position) {
      InsertFirst(env, r, rows[1..], d, p);
      FirstIsMember(env, rows[1..], d, p);
      var rest := Insert(r, rows[1..]);
      assert ([rows[0]] + rest)[1..] == rest;
    } else {
      assert ([r] + rows)[1..] == rows;
    }
  }

  lemma {:induction false} FirstIsMember(env: Env, rows: seq<Row>, d: Direction, p: Packet)
    ensures FirstOf(env, rows, d, p).Some? ==>
      FirstOf(env, rows, d, p).value in rows && Concerns(env, FirstOf(env, rows, d, p).value, d, p)
  {
    if rows != [] { FirstIsMember(env, rows[1..], d, p); }
  }

  lemma {:induction false} SortPermutes(rows: seq<Row>)
    ensures Ascending(ByPosition(rows)) && multiset(ByPosition(rows)) == multiset(rows)
  {
    if rows != [] {
      SortPermutes(rows[1..]);
      InsertAscends(rows[0], ByPosition(rows[1..]));
      InsertPermutes(rows[0], ByPosition(rows[1..]));
      assert rows == [rows[0]] + rows[1..];
    }
  }

  lemma SortedMembers(rows: seq<Row>)
    ensures Ascending(ByPosition(rows)) && multiset(ByPosition(rows)) == multiset(rows)
    ensures forall x :: x in ByPosition(rows) <==> x in rows
  {
    hide Ascending, ByPosition;
    SortPermutes(rows);
    forall x ensures x in ByPosition(rows) <==> x in rows {
      assert x in rows <==> x in multiset(rows);
      assert x in ByPosition(rows) <==> x in multiset(ByPosition(rows));
    }
  }

  lemma {:induction false} InsertPermutes(r: Row, rows: seq<Row>)
    ensures multiset(Insert(r, rows)) == multiset(rows) + multiset{r}
  {
    if !(rows == [] || r.position <= rows[0].position) {
      InsertPermutes(r, rows[1..]);
      assert rows == [rows[0]] + rows[1..];
    }
  }

  lemma {:induction false} SortedFirst(env: Env, rows: seq<Row>, d: Direction, p: Packet)
    ensures forall k :: Decides(env, rows, k, d, p) ==> FirstOf(env, ByPosition(rows), d, p) == Some(rows[k])
    ensures (forall k :: 0 <= k < |rows| ==> !Concerns(env, rows[k], d, p)) ==>
      FirstOf(env, ByPosition(rows), d, p) == None
  {
    hide Concerns;
    if rows != [] {
      var rest := rows[1..];
      SortedFirst(env, rest, d, p);
      SortedMembers(rest);
      InsertFirst(env, rows[0], ByPosition(rest), d, p);
      FirstIsMember(env, ByPosition(rest), d, p);
      forall k | Decides(env, rows, k, d, p) ensures FirstOf(env, ByPosition(rows), d, p) == Some(rows[k]) {
        if k > 0 {
          DecidesLater(env, rows, k, d, p);
        } else {
          DecidesFirst(env, rows, FirstOf(env, ByPosition(rest), d, p), d, p);
        }
      }
      NobodyInRest(env, rows, d, p);
    }
  }

  lemma NobodyInRest(env: Env, rows: seq<Row>, d: Direction, p: Packet)
    requires rows != []
    ensures (forall k :: 0 <= k < |rows| ==> !Concerns(env, rows[k], d, p)) ==>
      !Concerns(env, rows[0], d, p) && forall k :: 0 <= k < |rows[1..]| ==> !Concerns(env, rows[1..][k], d, p)
  {
    hide Concerns;
    assert forall k :: 0 <= k < |rows[1..]| ==> rows[1..][k] == rows[k + 1];
  }

  lemma DecidesLater(env: Env, rows: seq<Row>, k: int, d: Direction, p: Packet)
    requires Decides(env, rows, k, d, p) && k > 0
    ensures Decides(env, rows[1..], k - 1, d, p) && rows[1..][k - 1] == rows[k]
    ensures Concerns(env, rows[0], d, p) ==> rows[k].position < rows[0].position
  {
    hide Concerns;
    forall j | 0 <= j < |rows[1..]| && Concerns(env, rows[1..][j], d, p)
      ensures rows[k].position < rows[1..][j].position
              || (rows[k].position == rows[1..][j].position && k - 1 <= j)
    {
      assert rows[1..][j] == rows[j + 1];
    }
  }

  lemma DecidesFirst(env: Env, rows: seq<Row>, f: Option<Row>, d: Direction, p: Packet)
    requires Decides(env, rows, 0, d, p)
    requires f.Some? ==> f.value in rows[1..] && Concerns(env, f.value, d, p)
    ensures Concerns(env, rows[0], d, p) && (f.Some? ==> rows[0].position <= f.value.position)
  {
    hide Concerns;
    if f.Some? {
      var j :| 0 <= j < |rows[1..]| && rows[1..][j] == f.value;
      assert rows[j + 1] == f.value;
    }
  }

  // -------------------------------------------------------------- main results

  function HookOf(d: Direction): string { if d == Inbound then "input" else "output" }

  /** What the node decides about a packet once the text is applied. */
  function NodeAccepts(env: Env, kernel: map<string, Table>, d: Direction, p: Packet): Option<bool> {
    if "yourstack_fw" in kernel && HookOf(d) in kernel["yourstack_fw"] then
      var c := kernel["yourstack_fw"][HookOf(d)];
      if c.hook == Some(HookOf(d)) then Some(Accepts(env, c.rules, c.policy, p)) else None
    else None
  }

  predicate DefaultOf(f: FirewallRow, d: Direction) {
    if d == Inbound then f.defaultInbound == "allow" else f.defaultOutbound != "deny"
  }

  /** From rows to packets: whatever the rows' order in storage, whatever the
      kernel held before, the rendered text decides a packet by the row of least
      position that speaks about it, else by the direction's default; established
      and local traffic passes. */
  lemma CompilerKeepsMeaning(g: Grammar,
    env: Env, f: FirewallRow, rows: seq<Row>, kernel: map<string, Table>, d: Direction, p: Packet)
    requires forall i :: 0 <= i < |rows| ==> PlainRule(g, RuleOf(rows[i]))
    ensures var text := TextOf(RulesetLines(BuildFirewallSpec(f, rows)));
      var verdict := NodeAccepts(env, Apply(g, kernel, text), d, p);
      && (p.established || p.loopback ==> verdict == Some(true))
      && (!p.established && !p.loopback ==>
            && (forall k :: Decides(env, rows, k, d, p) ==> verdict == Some(rows[k].action != "deny"))
            && ((forall k :: 0 <= k < |rows| ==> !Concerns(env, rows[k], d, p)) ==>
                  verdict == Some(DefaultOf(f, d))))
  {
    hide Concerns, RulesetLines, TextOf, PlainRule, Apply, Decides, BuildFirewallSpec, NodeAccepts, RuleOf, FirstOf;
    SpecDecides(g, env, f, rows, kernel, d, p);
    SortedFirst(env, rows, d, p);
    forall k | 0 <= k < |rows| ensures (RuleOf(rows[k]).action == Allow) == (rows[k].action != "deny") {
      ActionMeans(rows[k]);
    }
    DecidesInRange(env, rows, d, p);
  }

  lemma ActionMeans(row: Row)
    ensures (RuleOf(row).action == Allow) == (row.action != "deny")
  {}

  lemma DecidesInRange(env: Env, rows: seq<Row>, d: Direction, p: Packet)
    ensures forall k :: Decides(env, rows, k, d, p) ==> 0 <= k < |rows|
  {}

  /** The text decides as the first row in position order that speaks about the
      packet. */
  lemma SpecDecides(g: Grammar,
    env: Env, f: FirewallRow, rows: seq<Row>, kernel: map<string, Table>, d: Direction, p: Packet)
    requires forall i :: 0 <= i < |rows| ==> PlainRule(g, RuleOf(rows[i]))
    ensures var text := TextOf(RulesetLines(BuildFirewallSpec(f, rows)));
      NodeAccepts(env, Apply(g, kernel, text), d, p) ==
        Some(p.established || p.loopback ||
             match FirstOf(env, ByPosition(rows), d, p)
             case Some(row) => RuleOf(row).action == Allow
             case None => DefaultOf(f, d))
  {
    hide RulesetLines, TextOf, PlainRule, Meanings, Apply, RuleOf, FirstOf, TableOf, ByPosition, BASELINE, Accepts;
    var spec, sorted := BuildFirewallSpec(f, rows), ByPosition(rows);
    SortedMembers(rows);
    forall i | 0 <= i < |sorted| ensures PlainRule(g, RulesOf(sorted)[i]) {
      assert sorted[i] in rows;
    }
    AppliedExactly(g, spec, kernel);
    TableHas(spec, d);
    BaselineDecides(env, Meanings(RulesOf(sorted), d), DefaultOf(f, d), p);
    RulesDecide(env, sorted, d, DefaultOf(f, d), p);
  }

  lemma TableHas(spec: Spec, d: Direction)
    ensures HookOf(d) in TableOf(spec)
    ensures TableOf(spec)[HookOf(d)] ==
      Compiled(HookOf(d), if d == Inbound then spec.defaultInbound else spec.defaultOutbound, spec.rules, d)
  {
    hide Compiled;
    assert "input"[0] != "output"[0];
  }

  lemma BaselineDecides(env: Env, body: seq<Rule>, policy: bool, p: Packet)
    ensures Accepts(env, BASELINE + body, policy, p)
            == (p.established || p.loopback || Accepts(env, body, policy, p))
  {
    var all := BASELINE + body;
    assert all[0] == BASELINE[0] && all[1..][0] == BASELINE[1] && all[1..][1..] == body;
    OneHolds(env, Established, p);
    OneHolds(env, Loopback, p);
  }

  lemma OneHolds(env: Env, m: Match, p: Packet)
    ensures AllHold(env, [m], p) <==> Holds(env, m, p)
  {
    assert [m][0] == m;
  }

  /** After a flush everything passes, in both directions. */
  lemma FlushOpens(g: Grammar, env: Env, id: string, kernel: map<string, Table>, d: Direction, p: Packet)
    ensures NodeAccepts(env, Apply(g, kernel, TextOf(RulesetLines(BuildFlushSpec(id)))), d, p) == Some(true)
  {
    hide RulesetLines, TextOf, Load, Apply;
    var spec := BuildFlushSpec(id);
    AppliedExactly(g, spec, kernel);
    TableHas(spec, d);
    BaselineDecides(env, [], true, p);
  }

  /** With distinct positions the spec, and so the text, does not depend on the
      order in which the rows are stored. */
  lemma StorageOrderIrrelevant(f: FirewallRow, rows: seq<Row>, other: seq<Row>)
    requires multiset(rows) == multiset(other)
    requires forall i, j :: 0 <= i < j < |rows| ==> rows[i].position != rows[j].position
    ensures BuildFirewallSpec(f, rows) == BuildFirewallSpec(f, other)
  {
    SortedMembers(other);
    SortedMembers(rows);
    SortIsStrict(rows);
    SortIsUnique(ByPosition(rows), ByPosition(other));
  }

  ghost predicate Strict(rows: seq<Row>) {
    forall i, j :: 0 <= i < j < |rows| ==> rows[i].position < rows[j].position
  }

  lemma {:induction false} SortIsStrict(rows: seq<Row>)
    requires forall i, j :: 0 <= i < j < |rows| ==> rows[i].position != rows[j].position
    ensures Strict(ByPosition(rows))
  {
    if rows != [] {
      var rest := rows[1..];
      SortIsStrict(rest);
      SortedMembers(rest);
      forall x | x in ByPosition(rest) ensures x.position != rows[0].position {
        var i :| 0 <= i < |rest| && rest[i] == x;
        assert rows[i + 1] == x;
      }
      InsertStrict(rows[0], ByPosition(rest));
    }
  }

  lemma {:induction false} InsertStrict(r: Row, rows: seq<Row>)
    requires Strict(rows) && forall x :: x in rows ==> x.position != r.position
    ensures Strict(Insert(r, rows))
  {
    forall i | 0 <= i < |rows| ensures rows[i].position != r.position { assert rows[i] in rows; }
    if !(rows == [] || r.position <= rows[0].position) {
      var tail := rows[1..];
      assert forall x :: x in tail ==> x in rows;
      InsertStrict(r, tail);
      InsertMembers(r, tail);
      StrictlyBelow(rows[0], Insert(r, tail), r, tail);
    }
  }

  lemma StrictlyBelow(first: Row, rest: seq<Row>, r: Row, tail: seq<Row>)
    requires Strict(rest) && first.position < r.position
    requires forall x :: x in rest ==> x == r || x in tail
    requires forall i :: 0 <= i < |tail| ==> first.position < tail[i].position
    ensures Strict([first] + rest)
  {
    forall i | 0 <= i < |rest| ensures first.position < rest[i].position {
      assert rest[i] in rest;
    }
  }

  lemma {:induction false} SortIsUnique(a: seq<Row>, b: seq<Row>)
    requires multiset(a) == multiset(b) && Strict(a)
    requires Ascending(b)
    ensures a == b
  {
    if a == [] {
      assert |multiset(b)| == 0;
    } else {
      assert |multiset(a)| == |multiset(b)|;
      SameFirst(a, b);
      SameRest(a, b);
      SortIsUnique(a[1..], b[1..]);
      assert a == [a[0]] + a[1..] && b == [b[0]] + b[1..];
    }
  }

  lemma SameFirst(a: seq<Row>, b: seq<Row>)
    requires a != [] && b != [] && multiset(a) == multiset(b) && Strict(a)
    requires Ascending(b)
    ensures a[0] == b[0]
  {
    assert a[0] in multiset(b) && b[0] in multiset(a);
    var i :| 0 <= i < |b| && b[i] == a[0];
    var j :| 0 <= j < |a| && a[j] == b[0];
    assert j == 0;
  }

  lemma SameRest(a: seq<Row>, b: seq<Row>)
    requires a != [] && b != [] && multiset(a) == multiset(b) && a[0] == b[0]
    ensures multiset(a[1..]) == multiset(b[1..])
  {
    assert a == [a[0]] + a[1..] && b == [b[0]] + b[1..];
    assert multiset(a[1..]) == multiset(a) - multiset{a[0]};
    assert multiset(b[1..]) == multiset(b) - multiset{b[0]};
  }

  // ------------------------------------------------- rules that are not plain

  ghost predicate TableOk(g: Grammar, t: Table) {
    forall c :: c in t ==> forall i :: 0 <= i < |t[c].rules| ==> RuleOk(g, t[c].rules[i])
  }

  ghost predicate KernelOk(g: Grammar, k: map<string, Table>) { forall t :: t in k ==> TableOk(g, k[t]) }

  lemma LineKeepsOk(g: Grammar, l: Loader, ws: seq<string>)
    requires Open(l) && KernelOk(g, l.kernel)
    ensures Line(g, l, ws).Some? ==> KernelOk(g, Line(g, l, ws).value.kernel)
  {
    hide ReadRule, RuleOk, Policy;
    ReadIsOk(g, ws);
  }

  /** Whatever is loaded, the kernel holds only rules with addresses and ports that nft
      takes. */
  lemma {:induction false} LoadKeepsOk(g: Grammar, l: Loader, lines: seq<string>)
    requires Open(l) && KernelOk(g, l.kernel)
    ensures Load(g, l, lines).Some? ==> KernelOk(g, Load(g, l, lines).value.kernel)
    decreases |lines|
  {
    hide Line, Words, KernelOk;
    if lines != [] {
      LineKeepsOk(g, l, Words(lines[0]));
      if Line(g, l, Words(lines[0])).Some? { LoadKeepsOk(g, Line(g, l, Words(lines[0])).value, lines[1..]); }
    }
  }

  lemma {:induction false} MeaningsHas(rules: seq<RuleSpec>, i: nat)
    requires i < |rules|
    ensures Meaning(rules[i]) in Meanings(rules, rules[i].direction)
  {
    hide Meaning;
    if i > 0 { MeaningsHas(rules[1..], i - 1); }
  }

  lemma CompiledIsOk(g: Grammar, spec: Spec, i: nat)
    requires TableOk(g, TableOf(spec)) && i < |spec.rules|
    ensures PlainRule(g, spec.rules[i])
  {
    hide RuleOk, PlainRule, Meaning, BASELINE;
    var r := spec.rules[i];
    MeaningsHas(spec.rules, i);
    TableHas(spec, r.direction);
    var all := TableOf(spec)[HookOf(r.direction)].rules;
    assert all == BASELINE + Meanings(spec.rules, r.direction);
    var own := Meanings(spec.rules, r.direction);
    var k :| 0 <= k < |own| && own[k] == Meaning(r);
    assert all[|BASELINE| + k] == own[k];
    assert RuleOk(g, all[|BASELINE| + k]);
    MeaningIsOk(g, r);
  }

  /** Applying the text puts what the spec means into this kernel. */
  predicate AppliesAsMeant(g: Grammar, spec: Spec, kernel: map<string, Table>) {
    Apply(g, kernel, TextOf(RulesetLines(spec))) == kernel["yourstack_fw" := TableOf(spec)]
  }

  /** For every spec: applying its text puts what it means into every kernel exactly
      when all its rules are plain. */
  lemma AppliedAsMeantExactly(g: Grammar, spec: Spec)
    ensures (forall kernel :: AppliesAsMeant(g, spec, kernel)) <==> AllPlain(g, spec.rules)
  {
    hide Load, RulesetLines, TextOf, PlainRule, TableOf, Apply, AllPlain;
    var none: map<string, Table> := map[];
    if AllPlain(g, spec.rules) {
      forall kernel ensures AppliesAsMeant(g, spec, kernel) { AppliedExactly(g, spec, kernel); }
    }
    if AppliesAsMeant(g, spec, none) { AsMeantIsPlain(g, spec, none); }
  }

  lemma AsMeantIsPlain(g: Grammar, spec: Spec, none: map<string, Table>)
    requires none == map[] && AppliesAsMeant(g, spec, none)
    ensures AllPlain(g, spec.rules)
  {
    hide Load, RulesetLines, TextOf, PlainRule, TableOf, TableOk;
    var text := TextOf(RulesetLines(spec));
    LoadKeepsOk(g, Loader(none, None, None), SplitLines(text));
    assert KernelOk(g, Apply(g, none, text));
    assert TABLE in Apply(g, none, text) && TableOk(g, TableOf(spec));
    forall i | 0 <= i < |spec.rules| ensures PlainRule(g, spec.rules[i]) { CompiledIsOk(g, spec, i); }
  }

  /** One rule that cannot be read, in either direction and whatever the others are:
      the whole text is refused, and the kernel keeps what it had. */
  lemma UnreadIsRefused(g: Grammar, spec: Spec, i: nat, kernel: map<string, Table>)
    requires i < |spec.rules| && Reading(g, spec.rules[i]) == None && AllUnbroken(RulesetLines(spec))
    ensures Apply(g, kernel, TextOf(RulesetLines(spec))) == kernel
  {
    hide RulesetLines, TextOf, Apply, Reading, AllUnbroken;
    AppliedOrRefused(g, spec, kernel);
    assert !AllRead(g, spec.rules, spec.rules[i].direction);
  }

  /** Such a rule, whatever nft takes for a port: tcp with a port that is a blank. */
  lemma BlankPortIsUnread(g: Grammar, r: RuleSpec)
    requires r.protocol == Tcp && r.port == Some(" ") && !HasNet(r)
    ensures Reading(g, r) == None
  {
    hide JoinWords, Words;
    assert RustTrim(" ") == "" by { assert " "[1..] == ""; }
    NoWords();
    PartsWords(r);
    VerdictIsWord(r.action);
    assert ["tcp", "dport"] + [] == ["tcp", "dport"];
    assert [] + ["tcp", "dport"] + [VerdictWord(r.action)] == ["tcp", "dport", VerdictWord(r.action)];
    NoVerdictLeft(g, VerdictWord(r.action));
  }

  /** The verdict stands where the port should. */
  lemma NoVerdictLeft(g: Grammar, verdict: string)
    requires Follows(verdict)
    ensures ReadRule(g, ["tcp", "dport", verdict]) == None
  {
    var ws := ["tcp", "dport", verdict];
    assert ws[2..] == [verdict] && [verdict][..1] == [verdict];
    assert !PhraseWords([verdict]) by { assert [verdict][0] == verdict; }
    assert Verdict(ws) == None;
  }
}
