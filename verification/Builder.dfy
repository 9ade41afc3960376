/** The visual builder: a blueprint laid out as a graph of nodes and edges, and the
    graph read back as a blueprint. */
module Builder {
  import opened Options
  import Text

  // -------------------------------------------------------------- blueprints

  datatype Quota = Number(n: int) | Literal(s: string)

  datatype AppSpec = AppSpec(
    name: string, source: Option<string>, image: Option<string>, framework: Option<string>,
    port: Option<int>, domains: Option<seq<string>>)

  datatype DatabaseSpec = DatabaseSpec(name: string, engine: Option<string>, version: Option<string>)
  datatype BucketSpec = BucketSpec(name: string, isPublic: Option<bool>, quota: Option<Quota>)
  datatype FunctionSpec = FunctionSpec(name: string, runtime: Option<string>, handler: Option<string>)

  datatype CronSpec = CronSpec(
    name: string, schedule: Option<string>, image: Option<string>, command: Option<string>)

  datatype RuleSpec = RuleSpec(
    allow: Option<bool>, protocol: Option<string>, port: Option<string>, cidr: Option<string>)

  datatype FirewallSpec = FirewallSpec(
    name: string, defaultInbound: Option<string>, rules: Option<seq<RuleSpec>>)

  datatype BalancerSpec = BalancerSpec(
    name: string, port: Option<int>, algorithm: Option<string>, targets: Option<seq<string>>,
    domain: Option<string>, autoHttps: Option<bool>)

  /** The fields that the builder knows. */
  datatype Blueprint = Blueprint(
    project: string, region: Option<string>,
    apps: Option<seq<AppSpec>>, databases: Option<seq<DatabaseSpec>>, buckets: Option<seq<BucketSpec>>,
    functions: Option<seq<FunctionSpec>>, cron: Option<seq<CronSpec>>,
    firewalls: Option<seq<FirewallSpec>>, loadBalancers: Option<seq<BalancerSpec>>)

  // ------------------------------------------------------------------- graphs

  datatype BuilderRule = BuilderRule(allow: bool, protocol: string, port: string, cidr: string)

  datatype Body =
    | App(source: Option<string>, image: Option<string>, framework: Option<string>, port: Option<int>)
    | Database(engine: Option<string>, version: Option<string>)
    | Bucket(isPublic: Option<bool>, quota: Option<string>)
    | Function(runtime: Option<string>, handler: Option<string>)
    | Cron(schedule: Option<string>, image: Option<string>, command: Option<string>)
    | Firewall(defaultInbound: Option<string>, rules: Option<seq<BuilderRule>>)
    | Balancer(algorithm: Option<string>, listenPort: Option<int>, targets: Option<seq<string>>,
               domain: Option<string>, autoHttps: Option<bool>)
    | Domain(hostname: Option<string>)

  datatype Node = Node(id: string, x: int, y: int, name: string, body: Body)
  datatype Edge = Edge(id: string, from: string, to: string)
  datatype State = State(project: string, region: Option<string>, nodes: seq<Node>, edges: seq<Edge>)

  // ------------------------------------------------------- from graph to blueprint

  /** `x || undefined` */
  function OrNone(x: Option<string>): Option<string> { if x == Some("") then None else x }

  /** `x ?? d` */
  function Or<T>(x: Option<T>, d: T): T { if x.Some? then x.value else d }

  function NeighborIds(edges: seq<Edge>, id: string): set<string> {
    (set e | e in edges && e.from == id :: e.to) + (set e | e in edges && e.to == id :: e.from)
  }

  function Among(nodes: seq<Node>, ids: set<string>): seq<Node> {
    if nodes == [] then []
    else Among(nodes[..|nodes| - 1], ids) + (var n := nodes[|nodes| - 1]; if n.id in ids then [n] else [])
  }

  /** `neighbors` */
  method Neighbors(nodes: seq<Node>, edges: seq<Edge>, id: string) returns (r: seq<Node>)
    ensures r == Among(nodes, NeighborIds(edges, id))
  {
    var ids: set<string> := {};
    for i := 0 to |edges|
      invariant ids == NeighborIds(edges[..i], id)
    {
      var e := edges[i];
      NeighborIdsMore(edges[..i], e, id);
      assert edges[..i + 1] == edges[..i] + [e];
      if e.from == id { ids := ids + {e.to}; }
      if e.to == id { ids := ids + {e.from}; }
    }
    assert edges[..|edges|] == edges;
    r := Among(nodes, ids);
  }

  lemma NeighborIdsMore(edges: seq<Edge>, e: Edge, id: string)
    ensures NeighborIds(edges + [e], id) ==
      NeighborIds(edges, id) + (if e.from == id then {e.to} else {}) + (if e.to == id then {e.from} else {})
  {}

  function Collect<T>(nodes: seq<Node>, f: Node -> Option<T>): seq<T> {
    if nodes == [] then []
    else
      Collect(nodes[..|nodes| - 1], f)
      + (match f(nodes[|nodes| - 1]) case Some(t) => [t] case None => [])
  }

  function HostOf(n: Node): Option<string> { if n.body.Domain? then OrNone(n.body.hostname) else None }

  function AppNameOf(n: Node): Option<string> { if n.body.App? then Some(n.name) else None }

  function HostsOf(nodes: seq<Node>, edges: seq<Edge>, id: string): seq<string> {
    Collect(Among(nodes, NeighborIds(edges, id)), HostOf)
  }

  function AppNamesOf(nodes: seq<Node>, edges: seq<Edge>, id: string): seq<string> {
    Collect(Among(nodes, NeighborIds(edges, id)), AppNameOf)
  }

  function NonEmpty(ss: seq<string>): seq<string> {
    if ss == [] then []
    else NonEmpty(ss[..|ss| - 1]) + (if ss[|ss| - 1] == "" then [] else [ss[|ss| - 1]])
  }

  function AppBack(n: Node, hosts: seq<string>): AppSpec
    requires n.body.App?
  {
    AppSpec(n.name, OrNone(n.body.source), OrNone(n.body.image), OrNone(n.body.framework), n.body.port,
            if hosts == [] then None else Some(hosts))
  }

  function DatabaseBack(n: Node): Option<DatabaseSpec> {
    if n.body.Database? then
      Some(DatabaseSpec(n.name, Some(Or(n.body.engine, "postgres")), OrNone(n.body.version)))
    else None
  }

  /** `flag || undefined` */
  function IfTrue(b: Option<bool>): Option<bool> { if b == Some(true) then b else None }

  function BucketBack(n: Node): Option<BucketSpec> {
    if n.body.Bucket? then
      var q := OrNone(n.body.quota);
      Some(BucketSpec(n.name, IfTrue(n.body.isPublic), if q == None then None else Some(Literal(q.value))))
    else None
  }

  function FunctionBack(n: Node): Option<FunctionSpec> {
    if n.body.Function? then
      Some(FunctionSpec(n.name, Some(Or(n.body.runtime, "node20")), OrNone(n.body.handler)))
    else None
  }

  const HOURLY := "0 * * * *"

  function CronBack(n: Node): Option<CronSpec> {
    if n.body.Cron? then
      Some(CronSpec(n.name, Some(Or(n.body.schedule, HOURLY)), Some(Or(n.body.image, "alpine:3")),
                    OrNone(n.body.command)))
    else None
  }

  function RulesBack(rules: seq<BuilderRule>): seq<RuleSpec> {
    if rules == [] then []
    else
      RulesBack(rules[..|rules| - 1])
      + (var r := rules[|rules| - 1];
         [RuleSpec(Some(r.allow), Some(r.protocol), OrNone(Some(r.port)), Some(r.cidr))])
  }

  function FirewallBack(n: Node): Option<FirewallSpec> {
    if n.body.Firewall? then
      Some(FirewallSpec(n.name, Some(Or(n.body.defaultInbound, "deny")),
                        Some(RulesBack(Or(n.body.rules, [])))))
    else None
  }

  function BalancerBack(n: Node, appNames: seq<string>): BalancerSpec
    requires n.body.Balancer?
  {
    BalancerSpec(n.name, Some(Or(n.body.listenPort, 80)), OrNone(n.body.algorithm),
                 Some(NonEmpty(appNames + Or(n.body.targets, []))), OrNone(n.body.domain), IfTrue(n.body.autoHttps))
  }

  function AppsBack(nodes: seq<Node>, all: seq<Node>, edges: seq<Edge>): seq<AppSpec> {
    if nodes == [] then []
    else
      var n := nodes[|nodes| - 1];
      AppsBack(nodes[..|nodes| - 1], all, edges)
      + (if n.body.App? then [AppBack(n, HostsOf(all, edges, n.id))] else [])
  }

  function BalancersBack(nodes: seq<Node>, all: seq<Node>, edges: seq<Edge>): seq<BalancerSpec> {
    if nodes == [] then []
    else
      var n := nodes[|nodes| - 1];
      BalancersBack(nodes[..|nodes| - 1], all, edges)
      + (if n.body.Balancer? then [BalancerBack(n, AppNamesOf(all, edges, n.id))] else [])
  }

  /** `stateToBlueprint` */
  function StateToBlueprint(s: State): Blueprint {
    Blueprint(
      if s.project == "" then "my-project" else s.project, OrNone(s.region),
      Some(AppsBack(s.nodes, s.nodes, s.edges)),
      Some(Collect(s.nodes, DatabaseBack)), Some(Collect(s.nodes, BucketBack)),
      Some(Collect(s.nodes, FunctionBack)), Some(Collect(s.nodes, CronBack)),
      Some(Collect(s.nodes, FirewallBack)),
      Some(BalancersBack(s.nodes, s.nodes, s.edges)))
  }

  // ------------------------------------------------------- from blueprint to graph

  /** `builderId`; `clock` is the time stamp's text at the n-th call. */
  function NewId(clock: nat -> string, prefix: string, n: nat): string {
    prefix + "-" + clock(n) + "-" + Text.NatText(n)
  }

  /** The graph under construction: rows taken per lane, and the id counter. */
  datatype Canvas = Canvas(nodes: seq<Node>, edges: seq<Edge>, rows: map<int, nat>, ids: nat)

  function RowsIn(c: Canvas, lane: int): nat { if lane in c.rows then c.rows[lane] else 0 }

  function Lane(b: Body): int {
    match b
    case Domain(_) => 0
    case Balancer(_, _, _, _, _) => 1
    case App(_, _, _, _) => 2
    case Function(_, _) => 2
    case Cron(_, _, _) => 2
    case Database(_, _) => 3
    case Bucket(_, _) => 3
    case Firewall(_, _) => 3
  }

  function Prefix(b: Body): string {
    match b
    case Domain(_) => "domain"
    case Balancer(_, _, _, _, _) => "loadBalancer"
    case App(_, _, _, _) => "app"
    case Function(_, _) => "function"
    case Cron(_, _, _) => "cron"
    case Database(_, _) => "database"
    case Bucket(_, _) => "bucket"
    case Firewall(_, _) => "firewall"
  }

  /** A new node, placed in the next free row of its lane. */
  function Push(clock: nat -> string, c: Canvas, name: string, body: Body): Canvas {
    var lane := Lane(body);
    Canvas(c.nodes + [Node(NewId(clock, Prefix(body), c.ids + 1), 60 + lane * 240, 40 + RowsIn(c, lane) * 130,
                           name, body)],
           c.edges, c.rows[lane := RowsIn(c, lane) + 1], c.ids + 1)
  }

  function Link(clock: nat -> string, c: Canvas, from: string, to: string): Canvas {
    c.(edges := c.edges + [Edge(NewId(clock, "e", c.ids + 1), from, to)], ids := c.ids + 1)
  }

  function LastId(c: Canvas): string
    requires c.nodes != []
  {
    c.nodes[|c.nodes| - 1].id
  }

  function AddDomains(clock: nat -> string, c: Canvas, owner: string, hosts: seq<string>): Canvas {
    if hosts == [] then c
    else
      var host := hosts[|hosts| - 1];
      var c' := Push(clock, AddDomains(clock, c, owner, hosts[..|hosts| - 1]), host, Domain(Some(host)));
      Link(clock, c', LastId(c'), owner)
  }

  function AppBody(a: AppSpec): Body { App(Some(Or(a.source, "")), Some(Or(a.image, "")), a.framework, a.port) }

  function AddApp(clock: nat -> string, c: Canvas, a: AppSpec): Canvas {
    var c' := Push(clock, c, a.name, AppBody(a));
    AddDomains(clock, c', LastId(c'), Or(a.domains, []))
  }

  function AddApps(clock: nat -> string, c: Canvas, apps: seq<AppSpec>): Canvas {
    if apps == [] then c
    else AddApp(clock, AddApps(clock, c, apps[..|apps| - 1]), apps[|apps| - 1])
  }

  function AddAll<T>(clock: nat -> string, c: Canvas, xs: seq<T>, name: T -> string, body: T -> Body): Canvas {
    if xs == [] then c
    else
      var x := xs[|xs| - 1];
      Push(clock, AddAll(clock, c, xs[..|xs| - 1], name, body), name(x), body(x))
  }

  function DatabaseBody(d: DatabaseSpec): Body { Database(d.engine, d.version) }

  function QuotaText(q: Option<Quota>): Option<string> {
    match q
    case None => None
    case Some(Number(n)) => Some(Text.IntText(n))
    case Some(Literal(s)) => Some(s)
  }

  function BucketBody(b: BucketSpec): Body { Bucket(b.isPublic, QuotaText(b.quota)) }

  function FunctionBody(f: FunctionSpec): Body { Function(f.runtime, f.handler) }

  function CronBody(c: CronSpec): Body { Cron(c.schedule, c.image, c.command) }

  function BuilderRules(rules: seq<RuleSpec>): seq<BuilderRule> {
    if rules == [] then []
    else
      BuilderRules(rules[..|rules| - 1])
      + (var r := rules[|rules| - 1];
         [BuilderRule(Or(r.allow, true), Or(r.protocol, "tcp"), Or(r.port, ""), Or(r.cidr, "0.0.0.0/0"))])
  }

  function FirewallBody(f: FirewallSpec): Body { Firewall(f.defaultInbound, Some(BuilderRules(Or(f.rules, [])))) }

  /** Which app node a name stands for: the last one placed. */
  function AppByName(nodes: seq<Node>): map<string, string> {
    if nodes == [] then map[]
    else
      var n, front := nodes[|nodes| - 1], AppByName(nodes[..|nodes| - 1]);
      if n.body.App? then front[n.name := n.id] else front
  }

  /** The targets that are no app's name. */
  function Manual(names: set<string>, targets: seq<string>): seq<string> {
    if targets == [] then []
    else
      var t := targets[|targets| - 1];
      Manual(names, targets[..|targets| - 1]) + (if t in names then [] else [t])
  }

  function LinkTargets(
    clock: nat -> string, c: Canvas, from: string, apps: map<string, string>, targets: seq<string>): Canvas
  {
    if targets == [] then c
    else
      var t, c' := targets[|targets| - 1], LinkTargets(clock, c, from, apps, targets[..|targets| - 1]);
      if t in apps then Link(clock, c', from, apps[t]) else c'
  }

  function BalancerBody(b: BalancerSpec, apps: map<string, string>): Body {
    Balancer(b.algorithm, b.port, Some(Manual(apps.Keys, Or(b.targets, []))), b.domain, b.autoHttps)
  }

  function AddBalancer(clock: nat -> string, c: Canvas, apps: map<string, string>, b: BalancerSpec): Canvas {
    var c' := Push(clock, c, b.name, BalancerBody(b, apps));
    LinkTargets(clock, c', LastId(c'), apps, Or(b.targets, []))
  }

  function AddBalancers(clock: nat -> string, c: Canvas, apps: map<string, string>, bs: seq<BalancerSpec>): Canvas {
    if bs == [] then c
    else AddBalancer(clock, AddBalancers(clock, c, apps, bs[..|bs| - 1]), apps, bs[|bs| - 1])
  }

  function DatabaseName(d: DatabaseSpec): string { d.name }
  function BucketName(b: BucketSpec): string { b.name }
  function FunctionName(f: FunctionSpec): string { f.name }
  function CronName(c: CronSpec): string { c.name }
  function FirewallName(f: FirewallSpec): string { f.name }

  function Rest(clock: nat -> string, c: Canvas, b: Blueprint): Canvas {
    var c2 := AddAll(clock, c, Or(b.databases, []), DatabaseName, DatabaseBody);
    var c3 := AddAll(clock, c2, Or(b.buckets, []), BucketName, BucketBody);
    var c4 := AddAll(clock, c3, Or(b.functions, []), FunctionName, FunctionBody);
    var c5 := AddAll(clock, c4, Or(b.cron, []), CronName, CronBody);
    AddAll(clock, c5, Or(b.firewalls, []), FirewallName, FirewallBody)
  }

  function Layout(clock: nat -> string, ids: nat, b: Blueprint): Canvas {
    var apps := AddApps(clock, Canvas([], [], map[], ids), Or(b.apps, []));
    AddBalancers(clock, Rest(clock, apps, b), AppByName(apps.nodes), Or(b.loadBalancers, []))
  }

  function StateOf(b: Blueprint, c: Canvas): State { State(b.project, b.region, c.nodes, c.edges) }
}
