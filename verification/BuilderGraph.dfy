/** How the graph grows: ids stay unique, a new node is nobody's neighbour, a domain
    is joined to its app alone and a balancer to its targets alone; and what reading
    the graph back gives at every stage. */
module BuilderGraph {
  import opened Options
  import Text
  import opened Builder

  // ------------------------------------------------------------- ids are unique

  function DigitsAtEnd(s: string): (d: string)
    ensures forall i :: 0 <= i < |d| ==> Text.IsDigit(d[i])
  {
    if s == "" || !Text.IsDigit(s[|s| - 1]) then "" else DigitsAtEnd(s[..|s| - 1]) + [s[|s| - 1]]
  }

  lemma {:induction false} DigitsAfterDash(x: string, d: string)
    requires forall i :: 0 <= i < |d| ==> Text.IsDigit(d[i])
    ensures DigitsAtEnd(x + "-" + d) == d
  {
    var s := x + "-" + d;
    if d == "" {
      assert s[|s| - 1] == '-';
    } else {
      var front := d[..|d| - 1];
      assert s[..|s| - 1] == x + "-" + front && s[|s| - 1] == d[|d| - 1];
      DigitsAfterDash(x, front);
      assert d == front + [d[|d| - 1]];
    }
  }

  /** The counter's value that an id ends in. */
  function Count(id: string): nat { Text.ParseNat(DigitsAtEnd(id)) }

  /** So two ids made at different times differ, whatever their prefixes and time
      stamps. */
  lemma CountOfNew(clock: nat -> string, prefix: string, n: nat)
    ensures Count(NewId(clock, prefix, n)) == n
  {
    DigitsAfterDash(prefix + "-" + clock(n), Text.NatText(n));
    Text.ParseOfNatText(n);
  }

  /** Node ids are made in order, and edges join nodes made before them. */
  ghost predicate Good(c: Canvas) {
    && (forall i, j :: 0 <= i < j < |c.nodes| ==> Count(c.nodes[i].id) < Count(c.nodes[j].id))
    && (forall i :: 0 <= i < |c.nodes| ==> Count(c.nodes[i].id) <= c.ids)
    && (forall e :: e in c.edges ==> Count(e.from) <= c.ids && Count(e.to) <= c.ids)
  }

  lemma PushGood(clock: nat -> string, c: Canvas, name: string, body: Body)
    requires Good(c)
    ensures var c' := Push(clock, c, name, body); Good(c') && Count(LastId(c')) == c'.ids == c.ids + 1
  {
    hide Count, NewId;
    CountOfNew(clock, Prefix(body), c.ids + 1);
  }

  lemma LinkGood(clock: nat -> string, c: Canvas, from: string, to: string)
    requires Good(c) && Count(from) <= c.ids && Count(to) <= c.ids
    ensures Good(Link(clock, c, from, to))
  {
    hide Count;
  }

  // ------------------------------------------------------------------ neighbours

  function HostsIn(c: Canvas, id: string): seq<string> { HostsOf(c.nodes, c.edges, id) }

  function NamesIn(c: Canvas, id: string): seq<string> { AppNamesOf(c.nodes, c.edges, id) }

  lemma CollectMore<T>(nodes: seq<Node>, n: Node, f: Node -> Option<T>)
    ensures Collect(nodes + [n], f) == Collect(nodes, f) + (match f(n) case Some(t) => [t] case None => [])
  {
    assert (nodes + [n])[..|nodes|] == nodes;
  }

  lemma AmongMore(nodes: seq<Node>, n: Node, ids: set<string>)
    ensures Among(nodes + [n], ids) == Among(nodes, ids) + (if n.id in ids then [n] else [])
  {
    assert (nodes + [n])[..|nodes|] == nodes;
  }

  /** A further id matters only if a node of that id is collected. */
  lemma {:induction false} CollectAmong<T>(nodes: seq<Node>, ids: set<string>, x: string, f: Node -> Option<T>)
    requires forall i :: 0 <= i < |nodes| && nodes[i].id == x ==> f(nodes[i]) == None
    ensures Collect(Among(nodes, ids + {x}), f) == Collect(Among(nodes, ids), f)
  {
    hide Collect, Among;
    if nodes != [] {
      CollectAmong(nodes[..|nodes| - 1], ids, x, f);
      CollectAmongStep(nodes, ids, f);
      CollectAmongStep(nodes, ids + {x}, f);
    } else {
      AmongNothing(ids);
      AmongNothing(ids + {x});
    }
  }

  lemma AmongNothing(ids: set<string>)
    ensures Among([], ids) == []
  {}

  function Maybe<T>(o: Option<T>): seq<T> { match o case Some(t) => [t] case None => [] }

  lemma CollectAmongStep<T>(nodes: seq<Node>, ids: set<string>, f: Node -> Option<T>)
    requires nodes != []
    ensures var n, front := nodes[|nodes| - 1], nodes[..|nodes| - 1];
      Collect(Among(nodes, ids), f) == Collect(Among(front, ids), f) + (if n.id in ids then Maybe(f(n)) else [])
  {
    var n, front := nodes[|nodes| - 1], nodes[..|nodes| - 1];
    if n.id in ids {
      CollectMore(Among(front, ids), n, f);
    } else {
      assert Among(front, ids) + [] == Among(front, ids);
      assert Collect(Among(front, ids), f) + [] == Collect(Among(front, ids), f);
    }
  }

  lemma NeighborsAreOld(c: Canvas, id: string, x: string)
    requires Good(c) && x in NeighborIds(c.edges, id)
    ensures Count(x) <= c.ids
  {
    hide Count;
  }

  lemma NewHasNone(c: Canvas, id: string)
    requires Good(c) && Count(id) > c.ids
    ensures NeighborIds(c.edges, id) == {}
  {
    hide Count;
  }

  /** A new node is nobody's neighbour yet. */
  lemma PushNeighbors(clock: nat -> string, c: Canvas, name: string, body: Body, id: string)
    requires Good(c)
    ensures var c' := Push(clock, c, name, body);
      && HostsIn(c', id) == HostsIn(c, id) && NamesIn(c', id) == NamesIn(c, id)
      && (id == LastId(c') ==> NeighborIds(c'.edges, id) == {})
  {
    hide Count, Good, NeighborIds, NewId, Among;
    var c' := Push(clock, c, name, body);
    PushGood(clock, c, name, body);
    var ids := NeighborIds(c.edges, id);
    if LastId(c') in ids { NeighborsAreOld(c, id, LastId(c')); }
    if id == LastId(c') { NewHasNone(c, id); }
    AmongMore(c.nodes, c'.nodes[|c.nodes|], ids);
    assert Among(c.nodes, ids) + [] == Among(c.nodes, ids);
  }

  /** An edge from a node that is no app makes it a neighbour of the other end, and
      changes nobody else's hosts. */
  lemma LinkHosts(clock: nat -> string, c: Canvas, from: string, to: string, id: string)
    requires from != to && id != from
    requires forall i :: 0 <= i < |c.nodes| && c.nodes[i].id == from ==> HostOf(c.nodes[i]) == None
    ensures HostsIn(Link(clock, c, from, to), id) == HostsIn(c, id)
  {
    hide NewId, HostOf;
    NeighborIdsMore(c.edges, Edge(NewId(clock, "e", c.ids + 1), from, to), id);
    CollectAmong(c.nodes, NeighborIds(c.edges, id), from, HostOf);
    assert NeighborIds(c.edges, id) + {} + {} == NeighborIds(c.edges, id);
    assert NeighborIds(c.edges, id) + {} + {from} == NeighborIds(c.edges, id) + {from};
  }

  /** A domain node and its edge add one host to its owner, and nothing to any
      other app. */
  lemma DomainAdds(clock: nat -> string, c: Canvas, owner: string, host: string, id: string)
    requires Good(c) && Count(owner) <= c.ids && Count(id) <= c.ids
    ensures var c' := Push(clock, c, host, Domain(Some(host)));
      var c'' := Link(clock, c', LastId(c'), owner);
      && Good(c'') && c''.ids >= c.ids
      && HostsIn(c'', id) == HostsIn(c, id) + (if id == owner && host != "" then [host] else [])
  {
    hide Count, Good, NeighborIds, NewId, Among, Collect;
    var c' := Push(clock, c, host, Domain(Some(host)));
    var d, ids := c'.nodes[|c.nodes|], NeighborIds(c.edges, id);
    PushGood(clock, c, host, Domain(Some(host)));
    LinkGood(clock, c', d.id, owner);
    PushNeighbors(clock, c, host, Domain(Some(host)), id);
    NeighborIdsMore(c.edges, Edge(NewId(clock, "e", c'.ids + 1), d.id, owner), id);
    if id == owner {
      if d.id in ids { NeighborsAreOld(c, id, d.id); }
      OldNodes(c, d.id);
      CollectAmong(c.nodes, ids, d.id, HostOf);
      AmongMore(c.nodes, d, ids + {d.id});
      CollectMore(Among(c.nodes, ids + {d.id}), d, HostOf);
      assert ids + {} + {d.id} == ids + {d.id};
    } else {
      assert ids + {} + {} == ids;
    }
  }

  lemma OldNodes(c: Canvas, id: string)
    requires Good(c) && Count(id) > c.ids
    ensures forall i :: 0 <= i < |c.nodes| ==> c.nodes[i].id != id
  {
    hide Count;
  }

  predicate NoApps(nodes: seq<Node>) { forall i :: 0 <= i < |nodes| ==> !nodes[i].body.App? }

  predicate OnlyDomains(nodes: seq<Node>) { forall i :: 0 <= i < |nodes| ==> nodes[i].body.Domain? }

  lemma {:induction false} DomainsAdd(
    clock: nat -> string, c: Canvas, owner: string, hosts: seq<string>, id: string)
    requires Good(c) && Count(owner) <= c.ids && Count(id) <= c.ids
    ensures var c' := AddDomains(clock, c, owner, hosts);
      && Good(c') && c'.ids >= c.ids
      && |c.nodes| <= |c'.nodes| && c'.nodes[..|c.nodes|] == c.nodes && OnlyDomains(c'.nodes[|c.nodes|..])
      && HostsIn(c', id) == HostsIn(c, id) + (if id == owner then NonEmpty(hosts) else [])
  {
    hide Count, Good, HostsIn, NewId;
    if hosts == [] {
      assert HostsIn(c, id) + [] == HostsIn(c, id);
    } else {
      var front, host := hosts[..|hosts| - 1], hosts[|hosts| - 1];
      var mid := AddDomains(clock, c, owner, front);
      DomainsAdd(clock, c, owner, front, id);
      DomainAdds(clock, mid, owner, host, id);
      var last := Push(clock, mid, host, Domain(Some(host)));
      Grown(c.nodes, mid.nodes, last.nodes[|mid.nodes|]);
    }
  }

  lemma Grown(base: seq<Node>, mid: seq<Node>, n: Node)
    requires |base| <= |mid| && mid[..|base|] == base && OnlyDomains(mid[|base|..]) && n.body.Domain?
    ensures (mid + [n])[..|base|] == base && OnlyDomains((mid + [n])[|base|..])
  {
    assert (mid + [n])[|base|..] == mid[|base|..] + [n];
  }

  // ------------------------------------------------------- the apps come back

  function NormalApp(a: AppSpec): AppSpec {
    var hosts := NonEmpty(Or(a.domains, []));
    AppSpec(a.name, OrNone(a.source), OrNone(a.image), OrNone(a.framework), a.port,
            if hosts == [] then None else Some(hosts))
  }

  function NormalApps(apps: seq<AppSpec>): seq<AppSpec> {
    if apps == [] then [] else NormalApps(apps[..|apps| - 1]) + [NormalApp(apps[|apps| - 1])]
  }

  lemma {:induction false} AppsBackFrame(nodes: seq<Node>, c: Canvas, c': Canvas)
    requires forall i :: 0 <= i < |nodes| && nodes[i].body.App? ==> HostsIn(c', nodes[i].id) == HostsIn(c, nodes[i].id)
    ensures AppsBack(nodes, c'.nodes, c'.edges) == AppsBack(nodes, c.nodes, c.edges)
  {
    hide HostsOf;
    if nodes != [] { AppsBackFrame(nodes[..|nodes| - 1], c, c'); }
  }

  lemma {:induction false} AppsBackMore(nodes: seq<Node>, more: seq<Node>, c: Canvas)
    requires NoApps(more)
    ensures AppsBack(nodes + more, c.nodes, c.edges) == AppsBack(nodes, c.nodes, c.edges)
  {
    hide HostsOf;
    if more == [] {
      assert nodes + more == nodes;
    } else {
      var front := more[..|more| - 1];
      assert (nodes + more)[..|nodes + more| - 1] == nodes + front;
      AppsBackMore(nodes, front, c);
    }
  }

  lemma AddAppBack(clock: nat -> string, c: Canvas, a: AppSpec)
    requires Good(c)
    ensures var c' := AddApp(clock, c, a);
      && Good(c') && c'.ids >= c.ids
      && AppsBack(c'.nodes, c'.nodes, c'.edges) == AppsBack(c.nodes, c.nodes, c.edges) + [NormalApp(a)]
  {
    hide Count, Good, HostsIn, NewId, HostsOf, AppsBack, AddDomains, AppBack, NormalApp;
    var c1, c' := Push(clock, c, a.name, AppBody(a)), AddApp(clock, c, a);
    var n, hosts := c1.nodes[|c.nodes|], Or(a.domains, []);
    PushGood(clock, c, a.name, AppBody(a));
    DomainsAdd(clock, c1, n.id, hosts, n.id);
    assert c'.nodes == c1.nodes + c'.nodes[|c1.nodes|..];
    AppsBackMore(c1.nodes, c'.nodes[|c1.nodes|..], c');
    AppsBackOneMore(c.nodes, n, c');
    OldApps(clock, c, a, hosts);
    AppsBackFrame(c.nodes, c, c');
    NewAppHosts(clock, c, a, hosts);
    HostsInIs(c', n.id);
    AppIsNormal(n, a);
  }

  lemma HostsInIs(c: Canvas, id: string)
    ensures HostsIn(c, id) == HostsOf(c.nodes, c.edges, id)
  {}

  lemma AppsBackOneMore(nodes: seq<Node>, n: Node, c: Canvas)
    requires n.body.App?
    ensures AppsBack(nodes + [n], c.nodes, c.edges)
            == AppsBack(nodes, c.nodes, c.edges) + [AppBack(n, HostsOf(c.nodes, c.edges, n.id))]
  {
    assert (nodes + [n])[..|nodes|] == nodes;
  }

  lemma OldApps(clock: nat -> string, c: Canvas, a: AppSpec, hosts: seq<string>)
    requires Good(c)
    ensures var c1 := Push(clock, c, a.name, AppBody(a));
      var c' := AddDomains(clock, c1, LastId(c1), hosts);
      forall i :: 0 <= i < |c.nodes| ==> HostsIn(c', c.nodes[i].id) == HostsIn(c, c.nodes[i].id)
  {
    hide Count, HostsIn, NewId;
    var c1 := Push(clock, c, a.name, AppBody(a));
    var c' := AddDomains(clock, c1, LastId(c1), hosts);
    PushGood(clock, c, a.name, AppBody(a));
    forall i | 0 <= i < |c.nodes| ensures HostsIn(c', c.nodes[i].id) == HostsIn(c, c.nodes[i].id) {
      var id := c.nodes[i].id;
      PushNeighbors(clock, c, a.name, AppBody(a), id);
      DomainsAdd(clock, c1, LastId(c1), hosts, id);
      assert id != LastId(c1);
      assert HostsIn(c, id) + [] == HostsIn(c, id);
    }
  }

  lemma NewAppHosts(clock: nat -> string, c: Canvas, a: AppSpec, hosts: seq<string>)
    requires Good(c)
    ensures var c1 := Push(clock, c, a.name, AppBody(a));
      HostsIn(AddDomains(clock, c1, LastId(c1), hosts), LastId(c1)) == NonEmpty(hosts)
  {
    hide Count, Good, NewId;
    var c1 := Push(clock, c, a.name, AppBody(a));
    PushGood(clock, c, a.name, AppBody(a));
    PushNeighbors(clock, c, a.name, AppBody(a), LastId(c1));
    DomainsAdd(clock, c1, LastId(c1), hosts, LastId(c1));
    NobodyAmong(c1.nodes);
    assert HostsIn(c1, LastId(c1)) == [];
    assert [] + NonEmpty(hosts) == NonEmpty(hosts);
  }

  lemma {:induction false} NobodyAmong(nodes: seq<Node>)
    ensures Among(nodes, {}) == []
  {
    if nodes != [] { NobodyAmong(nodes[..|nodes| - 1]); }
  }

  lemma AppIsNormal(n: Node, a: AppSpec)
    requires n.name == a.name && n.body == AppBody(a)
    ensures AppBack(n, NonEmpty(Or(a.domains, []))) == NormalApp(a)
  {}

  lemma {:induction false} AppsComeBack(clock: nat -> string, ids: nat, apps: seq<AppSpec>)
    ensures var c := AddApps(clock, Canvas([], [], map[], ids), apps);
      Good(c) && AppsBack(c.nodes, c.nodes, c.edges) == NormalApps(apps)
  {
    hide Count, NormalApp, HostsOf;
    if apps != [] {
      var front := apps[..|apps| - 1];
      AppsComeBack(clock, ids, front);
      AddAppBack(clock, AddApps(clock, Canvas([], [], map[], ids), front), apps[|apps| - 1]);
    }
  }

  // ------------------------------------------- resources that stand by themselves

  datatype Simple = Simple(
    databases: seq<DatabaseSpec>, buckets: seq<BucketSpec>, functions: seq<FunctionSpec>,
    cron: seq<CronSpec>, firewalls: seq<FirewallSpec>)

  function Plus(s: Simple, n: Node): Simple {
    Simple(s.databases + Maybe(DatabaseBack(n)), s.buckets + Maybe(BucketBack(n)),
           s.functions + Maybe(FunctionBack(n)), s.cron + Maybe(CronBack(n)), s.firewalls + Maybe(FirewallBack(n)))
  }

  function SimpleOf(nodes: seq<Node>): Simple {
    if nodes == [] then Simple([], [], [], [], [])
    else Plus(SimpleOf(nodes[..|nodes| - 1]), nodes[|nodes| - 1])
  }

  lemma {:induction false} SimpleIsCollected(nodes: seq<Node>)
    ensures SimpleOf(nodes) ==
      Simple(Collect(nodes, DatabaseBack), Collect(nodes, BucketBack), Collect(nodes, FunctionBack),
             Collect(nodes, CronBack), Collect(nodes, FirewallBack))
  {
    if nodes != [] { SimpleIsCollected(nodes[..|nodes| - 1]); }
  }

  predicate Graphic(n: Node) { n.body.App? || n.body.Domain? || n.body.Balancer? }

  predicate AllGraphic(nodes: seq<Node>) { forall i :: 0 <= i < |nodes| ==> Graphic(nodes[i]) }

  lemma PlusGraphic(s: Simple, n: Node)
    requires Graphic(n)
    ensures Plus(s, n) == s
  {
    assert s.databases + [] == s.databases && s.buckets + [] == s.buckets && s.functions + [] == s.functions;
    assert s.cron + [] == s.cron && s.firewalls + [] == s.firewalls;
  }

  lemma {:induction false} SimpleOfGraphic(nodes: seq<Node>, more: seq<Node>)
    requires AllGraphic(more)
    ensures SimpleOf(nodes + more) == SimpleOf(nodes)
  {
    hide Plus;
    if more == [] {
      assert nodes + more == nodes;
    } else {
      var front := more[..|more| - 1];
      assert (nodes + more)[..|nodes + more| - 1] == nodes + front;
      SimpleOfGraphic(nodes, front);
      PlusGraphic(SimpleOf(nodes), more[|more| - 1]);
    }
  }

  /** What a resource becomes: defaults written out, empty texts dropped. */
  function NormalDatabase(d: DatabaseSpec): DatabaseSpec {
    DatabaseSpec(d.name, Some(Or(d.engine, "postgres")), OrNone(d.version))
  }

  function NormalBucket(b: BucketSpec): BucketSpec {
    BucketSpec(b.name, IfTrue(b.isPublic),
               match b.quota
               case None => None
               case Some(Number(n)) => Some(Literal(Text.IntText(n)))
               case Some(Literal(s)) => if s == "" then None else Some(Literal(s)))
  }

  function NormalFunction(f: FunctionSpec): FunctionSpec {
    FunctionSpec(f.name, Some(Or(f.runtime, "node20")), OrNone(f.handler))
  }

  function NormalCron(c: CronSpec): CronSpec {
    CronSpec(c.name, Some(Or(c.schedule, "0 * * * *")), Some(Or(c.image, "alpine:3")), OrNone(c.command))
  }

  function NormalRule(r: RuleSpec): RuleSpec {
    RuleSpec(Some(Or(r.allow, true)), Some(Or(r.protocol, "tcp")), OrNone(r.port), Some(Or(r.cidr, "0.0.0.0/0")))
  }

  function MapAll<T, U>(xs: seq<T>, f: T -> U): seq<U> {
    if xs == [] then [] else MapAll(xs[..|xs| - 1], f) + [f(xs[|xs| - 1])]
  }

  function NormalFirewall(f: FirewallSpec): FirewallSpec {
    FirewallSpec(f.name, Some(Or(f.defaultInbound, "deny")), Some(MapAll(Or(f.rules, []), NormalRule)))
  }

  lemma {:induction false} RulesRoundTrip(rules: seq<RuleSpec>)
    ensures RulesBack(BuilderRules(rules)) == MapAll(rules, NormalRule)
  {
    if rules != [] {
      var front := BuilderRules(rules[..|rules| - 1]);
      RulesRoundTrip(rules[..|rules| - 1]);
      assert BuilderRules(rules)[..|front|] == front;
    }
  }

  /** One resource through the graph and back. */
  lemma OneBack(s: Simple, n: Node)
    ensures forall d: DatabaseSpec :: n.name == d.name && n.body == DatabaseBody(d) ==>
      Plus(s, n) == s.(databases := s.databases + [NormalDatabase(d)])
    ensures forall b: BucketSpec :: n.name == b.name && n.body == BucketBody(b) ==>
      Plus(s, n) == s.(buckets := s.buckets + [NormalBucket(b)])
    ensures forall f: FunctionSpec :: n.name == f.name && n.body == FunctionBody(f) ==>
      Plus(s, n) == s.(functions := s.functions + [NormalFunction(f)])
    ensures forall c: CronSpec :: n.name == c.name && n.body == CronBody(c) ==>
      Plus(s, n) == s.(cron := s.cron + [NormalCron(c)])
  {
    assert s.databases + [] == s.databases && s.buckets + [] == s.buckets && s.functions + [] == s.functions;
    assert s.cron + [] == s.cron && s.firewalls + [] == s.firewalls;
  }

  lemma FirewallComesBack(s: Simple, n: Node, f: FirewallSpec)
    requires n.name == f.name && n.body == FirewallBody(f)
    ensures Plus(s, n) == s.(firewalls := s.firewalls + [NormalFirewall(f)])
  {
    RulesRoundTrip(Or(f.rules, []));
    assert s.databases + [] == s.databases && s.buckets + [] == s.buckets && s.functions + [] == s.functions;
    assert s.cron + [] == s.cron;
  }

  lemma PushSimple(clock: nat -> string, c: Canvas, name: string, body: Body)
    ensures var c' := Push(clock, c, name, body);
      SimpleOf(c'.nodes) == Plus(SimpleOf(c.nodes), c'.nodes[|c.nodes|])
  {
    var c' := Push(clock, c, name, body);
    assert c'.nodes[..|c.nodes|] == c.nodes;
  }

  lemma {:induction false} DatabasesAdd(clock: nat -> string, c: Canvas, xs: seq<DatabaseSpec>)
    ensures var s := SimpleOf(c.nodes);
      SimpleOf(AddAll(clock, c, xs, DatabaseName, DatabaseBody).nodes)
      == s.(databases := s.databases + MapAll(xs, NormalDatabase))
  {
    hide Plus, NormalDatabase, SimpleOf;
    if xs == [] {
      assert SimpleOf(c.nodes).databases + [] == SimpleOf(c.nodes).databases;
    } else {
      var mid, x := AddAll(clock, c, xs[..|xs| - 1], DatabaseName, DatabaseBody), xs[|xs| - 1];
      DatabasesAdd(clock, c, xs[..|xs| - 1]);
      PushSimple(clock, mid, x.name, DatabaseBody(x));
      OneBack(SimpleOf(mid.nodes), Push(clock, mid, x.name, DatabaseBody(x)).nodes[|mid.nodes|]);
    }
  }

  lemma {:induction false} BucketsAdd(clock: nat -> string, c: Canvas, xs: seq<BucketSpec>)
    ensures var s := SimpleOf(c.nodes);
      SimpleOf(AddAll(clock, c, xs, BucketName, BucketBody).nodes)
      == s.(buckets := s.buckets + MapAll(xs, NormalBucket))
  {
    hide Plus, NormalBucket, SimpleOf;
    if xs == [] {
      assert SimpleOf(c.nodes).buckets + [] == SimpleOf(c.nodes).buckets;
    } else {
      var mid, x := AddAll(clock, c, xs[..|xs| - 1], BucketName, BucketBody), xs[|xs| - 1];
      BucketsAdd(clock, c, xs[..|xs| - 1]);
      PushSimple(clock, mid, x.name, BucketBody(x));
      OneBack(SimpleOf(mid.nodes), Push(clock, mid, x.name, BucketBody(x)).nodes[|mid.nodes|]);
    }
  }

  lemma {:induction false} FunctionsAdd(clock: nat -> string, c: Canvas, xs: seq<FunctionSpec>)
    ensures var s := SimpleOf(c.nodes);
      SimpleOf(AddAll(clock, c, xs, FunctionName, FunctionBody).nodes)
      == s.(functions := s.functions + MapAll(xs, NormalFunction))
  {
    hide Plus, NormalFunction, SimpleOf;
    if xs == [] {
      assert SimpleOf(c.nodes).functions + [] == SimpleOf(c.nodes).functions;
    } else {
      var mid, x := AddAll(clock, c, xs[..|xs| - 1], FunctionName, FunctionBody), xs[|xs| - 1];
      FunctionsAdd(clock, c, xs[..|xs| - 1]);
      PushSimple(clock, mid, x.name, FunctionBody(x));
      OneBack(SimpleOf(mid.nodes), Push(clock, mid, x.name, FunctionBody(x)).nodes[|mid.nodes|]);
    }
  }

  lemma {:induction false} CronAdd(clock: nat -> string, c: Canvas, xs: seq<CronSpec>)
    ensures var s := SimpleOf(c.nodes);
      SimpleOf(AddAll(clock, c, xs, CronName, CronBody).nodes) == s.(cron := s.cron + MapAll(xs, NormalCron))
  {
    hide Plus, NormalCron, SimpleOf;
    if xs == [] {
      assert SimpleOf(c.nodes).cron + [] == SimpleOf(c.nodes).cron;
    } else {
      var mid, x := AddAll(clock, c, xs[..|xs| - 1], CronName, CronBody), xs[|xs| - 1];
      CronAdd(clock, c, xs[..|xs| - 1]);
      PushSimple(clock, mid, x.name, CronBody(x));
      OneBack(SimpleOf(mid.nodes), Push(clock, mid, x.name, CronBody(x)).nodes[|mid.nodes|]);
    }
  }

  lemma {:induction false} FirewallsAdd(clock: nat -> string, c: Canvas, xs: seq<FirewallSpec>)
    ensures var s := SimpleOf(c.nodes);
      SimpleOf(AddAll(clock, c, xs, FirewallName, FirewallBody).nodes)
      == s.(firewalls := s.firewalls + MapAll(xs, NormalFirewall))
  {
    hide Plus, NormalFirewall, SimpleOf;
    if xs == [] {
      assert SimpleOf(c.nodes).firewalls + [] == SimpleOf(c.nodes).firewalls;
    } else {
      var mid, x := AddAll(clock, c, xs[..|xs| - 1], FirewallName, FirewallBody), xs[|xs| - 1];
      FirewallsAdd(clock, c, xs[..|xs| - 1]);
      PushSimple(clock, mid, x.name, FirewallBody(x));
      FirewallComesBack(SimpleOf(mid.nodes), Push(clock, mid, x.name, FirewallBody(x)).nodes[|mid.nodes|], x);
    }
  }

  /** They are nobody's neighbours, so the graph part does not notice them. */
  ghost predicate Aside(c: Canvas, c': Canvas) {
    && Good(c') && c'.ids >= c.ids && c'.edges == c.edges
    && |c.nodes| <= |c'.nodes| && c'.nodes[..|c.nodes|] == c.nodes
    && (forall i :: |c.nodes| <= i < |c'.nodes| ==> !Graphic(c'.nodes[i]))
    && (forall id :: HostsIn(c', id) == HostsIn(c, id) && NamesIn(c', id) == NamesIn(c, id))
  }

  lemma PushAside(clock: nat -> string, base: Canvas, c: Canvas, name: string, body: Body)
    requires Good(c) && Aside(base, c) && !(body.App? || body.Domain? || body.Balancer?)
    ensures Aside(base, Push(clock, c, name, body))
  {
    hide Good, HostsIn, NamesIn, NewId;
    var c' := Push(clock, c, name, body);
    PushGood(clock, c, name, body);
    forall id ensures HostsIn(c', id) == HostsIn(base, id) && NamesIn(c', id) == NamesIn(base, id) {
      PushNeighbors(clock, c, name, body, id);
    }
    assert c'.nodes[..|base.nodes|] == c.nodes[..|base.nodes|];
  }

  lemma {:induction false} AllAside<T>(
    clock: nat -> string, base: Canvas, c: Canvas, xs: seq<T>, name: T -> string, body: T -> Body)
    requires Aside(base, c) && forall x :: !(body(x).App? || body(x).Domain? || body(x).Balancer?)
    ensures Aside(base, AddAll(clock, c, xs, name, body))
  {
    hide Push;
    if xs != [] {
      AllAside(clock, base, c, xs[..|xs| - 1], name, body);
      var x := xs[|xs| - 1];
      IsGood(base, AddAll(clock, c, xs[..|xs| - 1], name, body));
      PushAside(clock, base, AddAll(clock, c, xs[..|xs| - 1], name, body), name(x), body(x));
    }
  }

  lemma IsGood(base: Canvas, c: Canvas)
    requires Aside(base, c)
    ensures Good(c)
  {}

  function SimpleNormal(b: Blueprint): Simple {
    Simple(MapAll(Or(b.databases, []), NormalDatabase), MapAll(Or(b.buckets, []), NormalBucket),
           MapAll(Or(b.functions, []), NormalFunction), MapAll(Or(b.cron, []), NormalCron),
           MapAll(Or(b.firewalls, []), NormalFirewall))
  }

  lemma RestComesBack(clock: nat -> string, c: Canvas, b: Blueprint)
    requires Good(c) && AllGraphic(c.nodes)
    ensures Aside(c, Rest(clock, c, b)) && SimpleOf(Rest(clock, c, b).nodes) == SimpleNormal(b)
  {
    hide Good, HostsIn, NamesIn, AddAll, SimpleOf, Aside, MapAll;
    var c2 := AddAll(clock, c, Or(b.databases, []), DatabaseName, DatabaseBody);
    var c3 := AddAll(clock, c2, Or(b.buckets, []), BucketName, BucketBody);
    var c4 := AddAll(clock, c3, Or(b.functions, []), FunctionName, FunctionBody);
    var c5 := AddAll(clock, c4, Or(b.cron, []), CronName, CronBody);
    AsideItself(c);
    AllAside(clock, c, c, Or(b.databases, []), DatabaseName, DatabaseBody);
    AllAside(clock, c, c2, Or(b.buckets, []), BucketName, BucketBody);
    AllAside(clock, c, c3, Or(b.functions, []), FunctionName, FunctionBody);
    AllAside(clock, c, c4, Or(b.cron, []), CronName, CronBody);
    AllAside(clock, c, c5, Or(b.firewalls, []), FirewallName, FirewallBody);
    SimpleOfGraphic([], c.nodes);
    assert [] + c.nodes == c.nodes;
    NothingSimple();
    DatabasesAdd(clock, c, Or(b.databases, []));
    BucketsAdd(clock, c2, Or(b.buckets, []));
    FunctionsAdd(clock, c3, Or(b.functions, []));
    CronAdd(clock, c4, Or(b.cron, []));
    FirewallsAdd(clock, c5, Or(b.firewalls, []));
  }

  lemma NothingSimple()
    ensures SimpleOf([]) == Simple([], [], [], [], [])
  {}

  lemma AsideItself(c: Canvas)
    requires Good(c)
    ensures Aside(c, c)
  {
    assert c.nodes[..|c.nodes|] == c.nodes;
  }

  // ------------------------------------------------------------ load balancers

  /** The app names that are targeted, each at its last place. */
  function NamedLast(names: seq<string>, targets: set<string>): seq<string> {
    if names == [] then []
    else
      var n := names[|names| - 1];
      NamedLast(names[..|names| - 1], targets - {n}) + (if n in targets then [n] else [])
  }

  function SetOf(ss: seq<string>): set<string> { set s | s in ss }

  function NormalTargets(names: seq<string>, targets: seq<string>): seq<string> {
    NonEmpty(NamedLast(names, SetOf(targets)) + Manual(SetOf(names), targets))
  }

  function NormalBalancer(names: seq<string>, b: BalancerSpec): BalancerSpec {
    BalancerSpec(b.name, Some(Or(b.port, 80)), OrNone(b.algorithm),
                 Some(NormalTargets(names, Or(b.targets, []))), OrNone(b.domain), IfTrue(b.autoHttps))
  }

  function NormalBalancers(names: seq<string>, bs: seq<BalancerSpec>): seq<BalancerSpec> {
    if bs == [] then []
    else NormalBalancers(names, bs[..|bs| - 1]) + [NormalBalancer(names, bs[|bs| - 1])]
  }

  /** The ids that targets stand for. */
  function Targeted(apps: map<string, string>, targets: set<string>): set<string> {
    set t | t in targets && t in apps :: apps[t]
  }

  ghost predicate Ascends(nodes: seq<Node>) {
    forall i, j :: 0 <= i < j < |nodes| ==> Count(nodes[i].id) < Count(nodes[j].id)
  }

  lemma {:induction false} AppByNameIds(nodes: seq<Node>)
    ensures forall t :: t in AppByName(nodes) ==>
      exists i :: 0 <= i < |nodes| && nodes[i].body.App? && nodes[i].id == AppByName(nodes)[t]
    ensures AppByName(nodes).Keys == SetOf(Collect(nodes, AppNameOf))
  {
    if nodes != [] {
      var front, n := nodes[..|nodes| - 1], nodes[|nodes| - 1];
      AppByNameIds(front);
      forall t | t in AppByName(nodes)
        ensures exists i :: 0 <= i < |nodes| && nodes[i].body.App? && nodes[i].id == AppByName(nodes)[t]
      {
        if n.body.App? && t == n.name {
          assert nodes[|nodes| - 1].id == AppByName(nodes)[t];
        } else {
          var i :| 0 <= i < |front| && front[i].body.App? && front[i].id == AppByName(front)[t];
          assert nodes[i] == front[i];
        }
      }
    }
  }

  /** The apps a balancer is joined to, in node order, are the targeted names. */
  lemma {:induction false} JoinedNames(nodes: seq<Node>, targets: set<string>)
    requires Ascends(nodes)
    ensures Collect(Among(nodes, Targeted(AppByName(nodes), targets)), AppNameOf)
            == NamedLast(Collect(nodes, AppNameOf), targets)
  {
    hide Count, Collect, Among, AppByName;
    if nodes == [] {
      NothingJoined(targets);
    } else {
      var front, n := nodes[..|nodes| - 1], nodes[|nodes| - 1];
      var names := Collect(front, AppNameOf);
      ByNameOfMore(nodes);
      CollectAmongStep(nodes, Targeted(AppByName(nodes), targets), AppNameOf);
      CollectMore(front, n, AppNameOf);
      assert front + [n] == nodes;
      OldTargets(nodes, targets);
      assert Ascends(front);
      if n.body.App? {
        JoinedNames(front, targets - {n.name});
        NewTarget(nodes, targets);
        CollectAmong(front, Targeted(AppByName(front), targets - {n.name}), n.id, AppNameOf);
        NamedLastMore(names, n.name, targets);
        var before := Targeted(AppByName(front), targets - {n.name});
        assert before + {} == before;
        assert Maybe(AppNameOf(n)) == [n.name];
      } else {
        JoinedNames(front, targets);
        assert Maybe(AppNameOf(n)) == [];
        assert names + [] == names;
      }
    }
  }

  lemma NamedLastMore(names: seq<string>, n: string, targets: set<string>)
    ensures NamedLast(names + [n], targets) == NamedLast(names, targets - {n}) + (if n in targets then [n] else [])
  {
    assert (names + [n])[..|names|] == names;
  }

  lemma NothingJoined(targets: set<string>)
    ensures Among([], Targeted(AppByName([]), targets)) == [] && Collect([], AppNameOf) == []
  {}

  lemma ByNameOfMore(nodes: seq<Node>)
    requires nodes != []
    ensures var front, n := AppByName(nodes[..|nodes| - 1]), nodes[|nodes| - 1];
      AppByName(nodes) == if n.body.App? then front[n.name := n.id] else front
  {}

  lemma OldTargets(nodes: seq<Node>, targets: set<string>)
    requires nodes != [] && Ascends(nodes)
    ensures var front, n := nodes[..|nodes| - 1], nodes[|nodes| - 1];
      && n.id !in AppByName(front).Values && forall i :: 0 <= i < |front| ==> front[i].id != n.id
  {
    hide Count, AppByName;
    var front, n := nodes[..|nodes| - 1], nodes[|nodes| - 1];
    AppByNameIds(front);
    forall i | 0 <= i < |front| ensures front[i].id != n.id {
      assert Count(nodes[i].id) < Count(n.id);
    }
  }

  lemma NewTarget(nodes: seq<Node>, targets: set<string>)
    requires nodes != [] && nodes[|nodes| - 1].body.App? && Ascends(nodes)
    ensures var front, n := AppByName(nodes[..|nodes| - 1]), nodes[|nodes| - 1];
      Targeted(AppByName(nodes), targets)
      == Targeted(front, targets - {n.name}) + (if n.name in targets then {n.id} else {})
    ensures var n := nodes[|nodes| - 1]; n.id in Targeted(AppByName(nodes), targets) <==> n.name in targets
  {
    hide Count;
    var front, n := AppByName(nodes[..|nodes| - 1]), nodes[|nodes| - 1];
    OldTargets(nodes, targets);
    assert AppByName(nodes) == front[n.name := n.id];
    if n.name in targets { assert n.id == AppByName(nodes)[n.name]; }
  }

  lemma {:induction false} NamesOfMore(nodes: seq<Node>, more: seq<Node>, ids: set<string>)
    requires NoApps(more)
    ensures Collect(Among(nodes + more, ids), AppNameOf) == Collect(Among(nodes, ids), AppNameOf)
  {
    hide Collect, Among;
    if more == [] {
      assert nodes + more == nodes;
    } else {
      var front, all := more[..|more| - 1], nodes + more;
      assert all[..|all| - 1] == nodes + front && all[|all| - 1] == more[|more| - 1];
      CollectAmongStep(all, ids, AppNameOf);
      NamesOfMore(nodes, front, ids);
      assert Maybe(AppNameOf(more[|more| - 1])) == [];
      assert Collect(Among(nodes, ids), AppNameOf) + [] == Collect(Among(nodes, ids), AppNameOf);
    }
  }

  /** Edges from a new balancer to apps: it becomes joined to exactly its targets;
      the apps' hosts and the other balancers' apps stay. */
  lemma {:induction false} TargetsLink(
    clock: nat -> string, c: Canvas, from: string, apps: map<string, string>, targets: seq<string>, id: string)
    requires Good(c) && Count(from) <= c.ids && from !in apps.Values
    requires forall x :: x in apps.Values ==> Count(x) <= c.ids
    requires forall i :: 0 <= i < |c.nodes| && c.nodes[i].id == from ==> HostOf(c.nodes[i]) == None
    ensures var c' := LinkTargets(clock, c, from, apps, targets);
      && Good(c') && c'.nodes == c.nodes && c'.ids >= c.ids
      && (id != from ==> HostsIn(c', id) == HostsIn(c, id))
      && (id != from && id !in apps.Values ==> NeighborIds(c'.edges, id) == NeighborIds(c.edges, id))
      && NeighborIds(c'.edges, from) == NeighborIds(c.edges, from) + Targeted(apps, SetOf(targets))
  {
    hide Count, Good, HostOf, HostsIn, NeighborIds, NewId;
    if targets == [] {
      assert Targeted(apps, SetOf(targets)) == {};
    } else {
      var front, t := targets[..|targets| - 1], targets[|targets| - 1];
      var mid := LinkTargets(clock, c, from, apps, front);
      TargetsLink(clock, c, from, apps, front, id);
      TargetedMore(apps, front, t);
      assert targets == front + [t];
      if t in apps {
        var e := Edge(NewId(clock, "e", mid.ids + 1), from, apps[t]);
        LinkGood(clock, mid, from, apps[t]);
        if id != from { LinkHosts(clock, mid, from, apps[t], id); }
        NeighborIdsMore(mid.edges, e, id);
        NeighborIdsMore(mid.edges, e, from);
      }
    }
  }

  lemma TargetedMore(apps: map<string, string>, targets: seq<string>, t: string)
    ensures Targeted(apps, SetOf(targets + [t]))
            == Targeted(apps, SetOf(targets)) + (if t in apps then {apps[t]} else {})
  {
    assert SetOf(targets + [t]) == SetOf(targets) + {t};
  }

  lemma {:induction false} BalancersBackFrame(nodes: seq<Node>, c: Canvas, c': Canvas)
    requires forall i :: 0 <= i < |nodes| && nodes[i].body.Balancer? ==>
      NamesIn(c', nodes[i].id) == NamesIn(c, nodes[i].id)
    ensures BalancersBack(nodes, c'.nodes, c'.edges) == BalancersBack(nodes, c.nodes, c.edges)
  {
    hide AppNamesOf;
    if nodes != [] { BalancersBackFrame(nodes[..|nodes| - 1], c, c'); }
  }

  lemma BalancersBackOneMore(nodes: seq<Node>, n: Node, c: Canvas)
    requires n.body.Balancer?
    ensures BalancersBack(nodes + [n], c.nodes, c.edges)
            == BalancersBack(nodes, c.nodes, c.edges) + [BalancerBack(n, AppNamesOf(c.nodes, c.edges, n.id))]
  {
    assert (nodes + [n])[..|nodes|] == nodes;
  }

  lemma {:induction false} NoBalancersBack(nodes: seq<Node>, more: seq<Node>, c: Canvas)
    requires forall i :: 0 <= i < |more| ==> !more[i].body.Balancer?
    ensures BalancersBack(nodes + more, c.nodes, c.edges) == BalancersBack(nodes, c.nodes, c.edges)
  {
    hide AppNamesOf;
    if more == [] {
      assert nodes + more == nodes;
    } else {
      var front := more[..|more| - 1];
      assert (nodes + more)[..|nodes + more| - 1] == nodes + front;
      NoBalancersBack(nodes, front, c);
    }
  }

  /** The apps and their domains stand first; no app comes after them. */
  ghost predicate AfterApps(c: Canvas, first: seq<Node>) {
    Good(c) && |first| <= |c.nodes| && c.nodes[..|first|] == first && NoApps(c.nodes[|first|..])
  }

  lemma AppIdsAreOld(c: Canvas, first: seq<Node>)
    requires AfterApps(c, first)
    ensures forall x :: x in AppByName(first).Values ==> Count(x) <= c.ids
    ensures forall i :: 0 <= i < |c.nodes| && c.nodes[i].body.Balancer? ==> c.nodes[i].id !in AppByName(first).Values
    ensures Ascends(first)
  {
    hide Count, AppByName;
    AppByNameIds(first);
    forall i | 0 <= i < |first| ensures first[i] == c.nodes[i] {
      assert c.nodes[..|first|][i] == c.nodes[i];
    }
    forall t | t in AppByName(first)
      ensures Count(AppByName(first)[t]) <= c.ids
      ensures forall j :: 0 <= j < |c.nodes| && c.nodes[j].body.Balancer? ==> c.nodes[j].id != AppByName(first)[t]
    {
      var i :| 0 <= i < |first| && first[i].body.App? && first[i].id == AppByName(first)[t];
      assert c.nodes[i].body.App?;
    }
  }

  /** What one more balancer does to the graph. */
  lemma BalancerAdds(clock: nat -> string, c: Canvas, first: seq<Node>, b: BalancerSpec)
    requires AfterApps(c, first)
    ensures var c', apps := AddBalancer(clock, c, AppByName(first), b), AppByName(first);
      && AfterApps(c', first)
      && c'.nodes == Push(clock, c, b.name, BalancerBody(b, apps)).nodes
      && (forall i :: 0 <= i < |c.nodes| ==> HostsIn(c', c.nodes[i].id) == HostsIn(c, c.nodes[i].id))
      && (forall i :: 0 <= i < |c.nodes| && c.nodes[i].body.Balancer? ==>
            NamesIn(c', c.nodes[i].id) == NamesIn(c, c.nodes[i].id))
      && NamesIn(c', LastId(c')) == NamedLast(Collect(first, AppNameOf), SetOf(Or(b.targets, [])))
  {
    hide Count, Good, HostsIn, NamesIn, NeighborIds, NewId, AppByName, LinkTargets, Collect, Targeted, NamedLast, SetOf;
    var apps, ts := AppByName(first), Or(b.targets, []);
    var c1 := Push(clock, c, b.name, BalancerBody(b, apps));
    var lb, c' := LastId(c1), AddBalancer(clock, c, apps, b);
    PushGood(clock, c, b.name, BalancerBody(b, apps));
    AppIdsAreOld(c, first);
    assert lb !in apps.Values;
    OldNodes(c, lb);
    TargetsLink(clock, c1, lb, apps, ts, lb);
    assert c1.nodes[..|first|] == c.nodes[..|first|];
    assert c1.nodes[|first|..] == c.nodes[|first|..] + [c1.nodes[|c.nodes|]];
    forall i | 0 <= i < |c.nodes|
      ensures HostsIn(c', c.nodes[i].id) == HostsIn(c, c.nodes[i].id)
      ensures c.nodes[i].body.Balancer? ==> NamesIn(c', c.nodes[i].id) == NamesIn(c, c.nodes[i].id)
    {
      var id := c.nodes[i].id;
      TargetsLink(clock, c1, lb, apps, ts, id);
      PushNeighbors(clock, c, b.name, BalancerBody(b, apps), id);
      NamesInIs(c1, id);
      NamesInIs(c', id);
    }
    PushNeighbors(clock, c, b.name, BalancerBody(b, apps), lb);
    assert {} + Targeted(apps, SetOf(ts)) == Targeted(apps, SetOf(ts));
    assert c'.nodes == first + c'.nodes[|first|..];
    NamesOfMore(first, c'.nodes[|first|..], Targeted(apps, SetOf(ts)));
    JoinedNames(first, SetOf(ts));
    NamesInIs(c', lb);
  }

  lemma NamesInIs(c: Canvas, id: string)
    ensures NamesIn(c, id) == Collect(Among(c.nodes, NeighborIds(c.edges, id)), AppNameOf)
  {}

  lemma BalancerIsNormal(n: Node, b: BalancerSpec, first: seq<Node>)
    requires n.name == b.name && n.body == BalancerBody(b, AppByName(first))
    ensures BalancerBack(n, NamedLast(Collect(first, AppNameOf), SetOf(Or(b.targets, []))))
            == NormalBalancer(Collect(first, AppNameOf), b)
  {
    AppByNameIds(first);
  }

  lemma AddBalancerBack(clock: nat -> string, c: Canvas, first: seq<Node>, b: BalancerSpec)
    requires AfterApps(c, first)
    ensures var c' := AddBalancer(clock, c, AppByName(first), b);
      && AfterApps(c', first)
      && AppsBack(c'.nodes, c'.nodes, c'.edges) == AppsBack(c.nodes, c.nodes, c.edges)
      && SimpleOf(c'.nodes) == SimpleOf(c.nodes)
      && BalancersBack(c'.nodes, c'.nodes, c'.edges)
         == BalancersBack(c.nodes, c.nodes, c.edges) + [NormalBalancer(Collect(first, AppNameOf), b)]
  {
    hide Count, Good, HostsIn, NamesIn, NewId, AppByName, AddBalancer, Collect, AfterApps, AppsBack, BalancersBack,
      BalancerBack, NormalBalancer, HostsOf, AppNamesOf, NamedLast, SimpleOf, Manual;
    var c', body := AddBalancer(clock, c, AppByName(first), b), BalancerBody(b, AppByName(first));
    BalancerAdds(clock, c, first, b);
    var n := Push(clock, c, b.name, body).nodes[|c.nodes|];
    assert c'.nodes == c.nodes + [n];
    AppsBackMore(c.nodes, [n], c');
    AppsBackFrame(c.nodes, c, c');
    SimpleOfGraphic(c.nodes, [n]);
    BalancersBackOneMore(c.nodes, n, c');
    BalancersBackFrame(c.nodes, c, c');
    NamesInSame(c', n.id);
    BalancerIsNormal(n, b, first);
  }

  lemma NamesInSame(c: Canvas, id: string)
    ensures NamesIn(c, id) == AppNamesOf(c.nodes, c.edges, id)
  {}

  lemma {:induction false} BalancersComeBack(clock: nat -> string, c: Canvas, first: seq<Node>, bs: seq<BalancerSpec>)
    requires AfterApps(c, first)
    ensures var c' := AddBalancers(clock, c, AppByName(first), bs);
      && AfterApps(c', first)
      && AppsBack(c'.nodes, c'.nodes, c'.edges) == AppsBack(c.nodes, c.nodes, c.edges)
      && SimpleOf(c'.nodes) == SimpleOf(c.nodes)
      && BalancersBack(c'.nodes, c'.nodes, c'.edges)
         == BalancersBack(c.nodes, c.nodes, c.edges) + NormalBalancers(Collect(first, AppNameOf), bs)
  {
    hide Collect, AfterApps, AppsBack, BalancersBack, NormalBalancer, SimpleOf, AppByName, AddBalancer;
    if bs != [] {
      var mid := AddBalancers(clock, c, AppByName(first), bs[..|bs| - 1]);
      BalancersComeBack(clock, c, first, bs[..|bs| - 1]);
      AddBalancerBack(clock, mid, first, bs[|bs| - 1]);
    }
  }
}
