/** Drawing and reading back. */
module BuilderLaws {
  import opened Options
  import Text
  import opened Builder
  import opened BuilderGraph

  // --------------------------------------------------------------- main results

  function Names(apps: seq<AppSpec>): seq<string> {
    if apps == [] then [] else Names(apps[..|apps| - 1]) + [apps[|apps| - 1].name]
  }

  /** What a blueprint becomes on its way through the builder: defaults written out,
      empty texts and unset flags dropped, balancer targets with the apps first. */
  function Normal(b: Blueprint): Blueprint {
    var s := SimpleNormal(b);
    Blueprint(
      if b.project == "" then "my-project" else b.project, OrNone(b.region),
      Some(NormalApps(Or(b.apps, []))), Some(s.databases), Some(s.buckets), Some(s.functions), Some(s.cron),
      Some(s.firewalls), Some(NormalBalancers(Names(Or(b.apps, [])), Or(b.loadBalancers, []))))
  }

  predicate AppsAndDomains(nodes: seq<Node>) {
    forall i :: 0 <= i < |nodes| ==> nodes[i].body.App? || nodes[i].body.Domain?
  }

  lemma {:induction false} NamesOfDomains(nodes: seq<Node>, more: seq<Node>)
    requires OnlyDomains(more)
    ensures Collect(nodes + more, AppNameOf) == Collect(nodes, AppNameOf)
  {
    if more == [] {
      assert nodes + more == nodes;
    } else {
      var front, all := more[..|more| - 1], nodes + more;
      assert all[..|all| - 1] == nodes + front;
      NamesOfDomains(nodes, front);
      assert Collect(nodes, AppNameOf) + [] == Collect(nodes, AppNameOf);
    }
  }

  lemma {:induction false} AppsAreFirst(clock: nat -> string, ids: nat, apps: seq<AppSpec>)
    ensures var c := AddApps(clock, Canvas([], [], map[], ids), apps);
      Good(c) && AppsAndDomains(c.nodes) && Collect(c.nodes, AppNameOf) == Names(apps)
  {
    hide Count, HostsOf, HostsIn, Good, NewId, AddApp, AppsAndDomains;
    AppsComeBack(clock, ids, apps);
    if apps != [] {
      var front := apps[..|apps| - 1];
      AppsAreFirst(clock, ids, front);
      OneMoreApp(clock, AddApps(clock, Canvas([], [], map[], ids), front), apps[|apps| - 1]);
    } else {
      NothingFirst();
    }
  }

  lemma NothingFirst()
    ensures AppsAndDomains([]) && Collect([], AppNameOf) == []
  {}

  lemma OneMoreApp(clock: nat -> string, c: Canvas, a: AppSpec)
    requires Good(c) && AppsAndDomains(c.nodes)
    ensures var c' := AddApp(clock, c, a);
      AppsAndDomains(c'.nodes) && Collect(c'.nodes, AppNameOf) == Collect(c.nodes, AppNameOf) + [a.name]
  {
    hide Count, HostsOf, HostsIn, Good, NewId, AddDomains, Collect, AppsAndDomains;
    var c1 := Push(clock, c, a.name, AppBody(a));
    var c' := AddDomains(clock, c1, LastId(c1), Or(a.domains, []));
    PushGood(clock, c, a.name, AppBody(a));
    DomainsAdd(clock, c1, LastId(c1), Or(a.domains, []), LastId(c1));
    var n, more := c1.nodes[|c.nodes|], c'.nodes[|c1.nodes|..];
    assert c'.nodes == c1.nodes + more && c1.nodes == c.nodes + [n];
    NamesOfDomains(c1.nodes, more);
    CollectMore(c.nodes, n, AppNameOf);
    KindsJoin(c.nodes, n, more);
  }

  lemma KindsJoin(nodes: seq<Node>, n: Node, more: seq<Node>)
    requires AppsAndDomains(nodes) && n.body.App? && OnlyDomains(more)
    ensures AppsAndDomains(nodes + [n] + more)
  {}

  /** Every blueprint survives being drawn and read back, up to its normal form:
      whatever the ids and time stamps, duplicate app names, unknown targets and
      missing fields. */
  lemma BuilderRoundTrip(clock: nat -> string, ids: nat, b: Blueprint)
    ensures StateToBlueprint(StateOf(b, Layout(clock, ids, b))) == Normal(b)
  {
    hide AddApps, Rest, AddBalancers, AppsBack, BalancersBack, SimpleOf, NormalApps, NormalBalancers, Collect, Names,
      AppByName, SimpleNormal, HostsIn, NamesIn, Good, AfterApps;
    var apps := Or(b.apps, []);
    var c1 := AddApps(clock, Canvas([], [], map[], ids), apps);
    var c2 := Rest(clock, c1, b);
    AppsComeBack(clock, ids, apps);
    AppsAreFirst(clock, ids, apps);
    RestComesBack(clock, c1, b);
    AsideKeepsGraph(c1, c2);
    BalancersComeBack(clock, c2, c1.nodes, Or(b.loadBalancers, []));
    SimpleIsCollected(Layout(clock, ids, b).nodes);
    assert [] + NormalBalancers(Names(apps), Or(b.loadBalancers, []))
      == NormalBalancers(Names(apps), Or(b.loadBalancers, []));
  }

  lemma AsideKeepsGraph(c: Canvas, c': Canvas)
    requires Aside(c, c') && AppsAndDomains(c.nodes)
    ensures AfterApps(c', c.nodes)
    ensures AppsBack(c'.nodes, c'.nodes, c'.edges) == AppsBack(c.nodes, c.nodes, c.edges)
    ensures BalancersBack(c'.nodes, c'.nodes, c'.edges) == []
  {
    hide HostsIn, NamesIn, Good, HostsOf, AppNamesOf;
    assert c'.nodes == c.nodes + c'.nodes[|c.nodes|..];
    AppsBackMore(c.nodes, c'.nodes[|c.nodes|..], c');
    AppsBackFrame(c.nodes, c, c');
    NoBalancersBack([], c'.nodes, c');
    assert [] + c'.nodes == c'.nodes;
  }

  // ------------------------------------------------------ the normal form is one

  lemma {:induction false} NonEmptyOfTwo(a: seq<string>, b: seq<string>)
    ensures NonEmpty(a + b) == NonEmpty(a) + NonEmpty(b)
  {
    if b == [] {
      assert a + b == a;
    } else {
      NonEmptyOfTwo(a, b[..|b| - 1]);
      assert (a + b)[..|a + b| - 1] == a + b[..|b| - 1];
    }
  }

  /** The texts that are left, and that nothing is left out otherwise. */
  lemma {:induction false} NonEmptyMembers(ss: seq<string>)
    ensures forall s :: s in NonEmpty(ss) <==> s in ss && s != ""
    ensures NonEmpty(ss) == ss <==> "" !in ss
    ensures |NonEmpty(ss)| <= |ss|
  {
    if ss != [] {
      var front, last := ss[..|ss| - 1], ss[|ss| - 1];
      NonEmptyMembers(front);
      assert ss == front + [last];
      if last == "" {
        assert |NonEmpty(ss)| < |ss|;
      }
    }
  }

  lemma {:induction false} ManualOfTwo(names: set<string>, a: seq<string>, b: seq<string>)
    ensures Manual(names, a + b) == Manual(names, a) + Manual(names, b)
  {
    if b == [] {
      assert a + b == a;
    } else {
      ManualOfTwo(names, a, b[..|b| - 1]);
      assert (a + b)[..|a + b| - 1] == a + b[..|b| - 1];
    }
  }

  lemma {:induction false} ManualMembers(names: set<string>, ts: seq<string>)
    ensures forall t :: t in Manual(names, ts) <==> t in ts && t !in names
    ensures (forall t :: t in ts ==> t !in names) ==> Manual(names, ts) == ts
    ensures (forall t :: t in ts ==> t in names) ==> Manual(names, ts) == []
  {
    if ts != [] {
      var front := ts[..|ts| - 1];
      ManualMembers(names, front);
      assert ts == front + [ts[|ts| - 1]];
    }
  }

  /** The last place of a name, or past the end. */
  function Place(names: seq<string>, t: string): nat {
    if names == [] then 0
    else if names[|names| - 1] == t then |names| - 1
    else var p := Place(names[..|names| - 1], t); if p == |names| - 1 then |names| else p
  }

  lemma {:induction false} PlaceIs(names: seq<string>, t: string)
    ensures Place(names, t) <= |names|
    ensures Place(names, t) < |names| <==> t in names
    ensures t in names ==> names[Place(names, t)] == t
  {
    if names != [] {
      PlaceIs(names[..|names| - 1], t);
      assert names == names[..|names| - 1] + [names[|names| - 1]];
    }
  }

  /** By last place, each once. */
  ghost predicate ByPlace(names: seq<string>, ts: seq<string>) {
    forall i, j :: 0 <= i < j < |ts| ==> Place(names, ts[i]) < Place(names, ts[j])
  }

  lemma {:induction false} NamedLastIs(names: seq<string>, targets: set<string>)
    ensures forall t :: t in NamedLast(names, targets) <==> t in targets && t in names
    ensures ByPlace(names, NamedLast(names, targets))
  {
    if names != [] {
      var front, n := names[..|names| - 1], names[|names| - 1];
      var some := NamedLast(front, targets - {n});
      NamedLastIs(front, targets - {n});
      assert names == front + [n];
      forall i | 0 <= i < |some| ensures Place(names, some[i]) == Place(front, some[i]) < |front| {
        assert some[i] in some;
        PlaceIs(front, some[i]);
      }
      forall t ensures t in NamedLast(names, targets) <==> t in targets && t in names {}
    }
  }

  lemma {:induction false} ByPlaceIsUnique(names: seq<string>, a: seq<string>, b: seq<string>)
    requires ByPlace(names, a) && ByPlace(names, b)
    requires forall t :: t in a <==> t in b
    requires forall t :: t in a ==> t in names
    ensures a == b
  {
    hide Place;
    assert |b| > 0 ==> b[0] in b;
    if a != [] {
      assert a[0] in a && a[0] in b;
      SameStart(names, a, b);
      forall t ensures t in a[1..] <==> t in b[1..] {
        AfterFirst(names, a, t);
        AfterFirst(names, b, t);
      }
      ByPlaceIsUnique(names, a[1..], b[1..]);
      assert a == [a[0]] + a[1..] && b == [b[0]] + b[1..];
    }
  }

  lemma SameStart(names: seq<string>, a: seq<string>, b: seq<string>)
    requires ByPlace(names, a) && ByPlace(names, b) && a != [] && b != []
    requires (forall t :: t in a <==> t in b) && forall t :: t in a ==> t in names
    ensures a[0] == b[0]
  {
    hide Place;
    assert b[0] in b && a[0] in a;
    var i :| 0 <= i < |b| && b[i] == a[0];
    var j :| 0 <= j < |a| && a[j] == b[0];
    PlaceIs(names, a[0]);
    PlaceIs(names, b[0]);
  }

  lemma AfterFirst(names: seq<string>, a: seq<string>, t: string)
    requires ByPlace(names, a) && a != []
    ensures t in a[1..] <==> t in a && t != a[0]
  {
    hide Place;
    assert a == [a[0]] + a[1..];
    forall i | 0 <= i < |a[1..]| ensures a[1..][i] != a[0] {
      assert a[1..][i] == a[i + 1] && Place(names, a[0]) < Place(names, a[i + 1]);
    }
  }

  /** A balancer keeps its targets, as a set, but for empty ones. */
  lemma TargetsKept(names: seq<string>, ts: seq<string>)
    ensures forall t :: t in NormalTargets(names, ts) <==> t in ts && t != ""
  {
    var p, m := NamedLast(names, SetOf(ts)), Manual(SetOf(names), ts);
    NamedLastIs(names, SetOf(ts));
    ManualMembers(SetOf(names), ts);
    NonEmptyMembers(p + m);
  }

  /** In order already: no empty target; the apps first, by last place and each
      once; then the others. */
  ghost predicate TargetsInOrder(names: seq<string>, ts: seq<string>) {
    && "" !in ts
    && forall i, j :: 0 <= i < j < |ts| ==>
         Place(names, ts[i]) < Place(names, ts[j]) || Place(names, ts[i]) == Place(names, ts[j]) == |names|
  }

  lemma NormalIsInOrder(names: seq<string>, ts: seq<string>)
    ensures TargetsInOrder(names, NormalTargets(names, ts))
  {
    hide Place;
    var p, m := NonEmpty(NamedLast(names, SetOf(ts))), NonEmpty(Manual(SetOf(names), ts));
    NonEmptyOfTwo(NamedLast(names, SetOf(ts)), Manual(SetOf(names), ts));
    assert NormalTargets(names, ts) == p + m;
    TargetsKept(names, ts);
    assert "" !in NormalTargets(names, ts);
    NamedLastIs(names, SetOf(ts));
    NonEmptyMembers(NamedLast(names, SetOf(ts)));
    NonEmptyMembers(Manual(SetOf(names), ts));
    ManualMembers(SetOf(names), ts);
    StillByPlace(names, NamedLast(names, SetOf(ts)));
    forall i | 0 <= i < |p| ensures Place(names, p[i]) < |names| { assert p[i] in p; PlaceIs(names, p[i]); }
    forall i | 0 <= i < |m| ensures Place(names, m[i]) == |names| { assert m[i] in m; PlaceIs(names, m[i]); }
  }

  lemma {:induction false} StillByPlace(names: seq<string>, ts: seq<string>)
    requires ByPlace(names, ts)
    ensures ByPlace(names, NonEmpty(ts))
  {
    hide Place;
    if ts != [] {
      var front, last := ts[..|ts| - 1], ts[|ts| - 1];
      StillByPlace(names, front);
      NonEmptyMembers(front);
      var some := NonEmpty(front);
      forall i | 0 <= i < |some| ensures Place(names, some[i]) < Place(names, last) {
        assert some[i] in front;
        var j :| 0 <= j < |front| && front[j] == some[i];
        assert ts[j] == some[i];
      }
    }
  }

  /** Targets come back unchanged exactly when they are in that order. */
  lemma TargetsUnchangedExactly(names: seq<string>, ts: seq<string>)
    ensures NormalTargets(names, ts) == ts <==> TargetsInOrder(names, ts)
  {
    hide TargetsInOrder, NormalTargets;
    NormalIsInOrder(names, ts);
    if TargetsInOrder(names, ts) { OrderedUnchanged(names, ts); }
  }

  lemma OrderedUnchanged(names: seq<string>, ts: seq<string>)
    requires TargetsInOrder(names, ts)
    ensures NormalTargets(names, ts) == ts
  {
    hide TargetsInOrder, NamedLast, ByPlace, Manual, NonEmpty;
    var k := Split(names, ts);
    var a, b := ts[..k], ts[k..];
    var p, m := NamedLast(names, SetOf(ts)), Manual(SetOf(names), ts);
    assert ts == a + b;
    ManualOfTwo(SetOf(names), a, b);
    ManualMembers(SetOf(names), a);
    ManualMembers(SetOf(names), b);
    PrefixInOrder(names, ts, k);
    AllByPlace(names, a);
    NamedLastIs(names, SetOf(ts));
    ByPlaceIsUnique(names, p, a);
    NonEmptyMembers(ts);
    NoneEmpty(names, ts);
    assert [] + b == b && p + m == ts;
  }

  lemma NoneEmpty(names: seq<string>, ts: seq<string>)
    requires TargetsInOrder(names, ts)
    ensures "" !in ts
  {}

  lemma OthersStay(names: seq<string>, ts: seq<string>, i: nat, j: nat)
    requires TargetsInOrder(names, ts) && i < j < |ts| && ts[i] !in names
    ensures ts[j] !in names
  {
    hide Place;
    PlaceIs(names, ts[i]);
    PlaceIs(names, ts[j]);
  }

  lemma PrefixInOrder(names: seq<string>, ts: seq<string>, k: nat)
    requires TargetsInOrder(names, ts) && k <= |ts|
    ensures TargetsInOrder(names, ts[..k])
  {
    hide Place;
    assert forall i :: 0 <= i < k ==> ts[..k][i] == ts[i];
    assert "" !in ts[..k];
  }

  lemma AllByPlace(names: seq<string>, ts: seq<string>)
    requires TargetsInOrder(names, ts) && forall t :: t in ts ==> t in names
    ensures ByPlace(names, ts)
  {
    hide Place;
    forall i, j | 0 <= i < j < |ts| ensures Place(names, ts[i]) < Place(names, ts[j]) {
      assert ts[i] in ts;
      PlaceIs(names, ts[i]);
    }
  }

  /** Where the app targets end. */
  lemma {:induction false} Split(names: seq<string>, ts: seq<string>) returns (k: nat)
    requires TargetsInOrder(names, ts)
    ensures k <= |ts|
    ensures forall t :: t in ts[..k] ==> t in names
    ensures forall t :: t in ts[k..] ==> t !in names
  {
    hide Place, TargetsInOrder;
    if ts == [] {
      k := 0;
    } else {
      var n := |ts| - 1;
      var front := ts[..n];
      PrefixInOrder(names, ts, n);
      k := Split(names, front);
      assert front[..k] == ts[..k] && ts[k..] == front[k..] + [ts[n]];
      if k < n {
        assert front[k] in front[k..];
        OthersStay(names, ts, k, n);
      } else if ts[n] in names {
        k := |ts|;
        assert ts[..k] == front[..n] + [ts[n]];
      }
    }
  }

  // ------------------------------------------------- what survives unchanged

  predicate NotEmpty(o: Option<string>) { o != Some("") }

  predicate AppWritten(a: AppSpec) {
    && NotEmpty(a.source) && NotEmpty(a.image) && NotEmpty(a.framework)
    && (a.domains.Some? ==> a.domains.value != [] && "" !in a.domains.value)
  }

  predicate DatabaseWritten(d: DatabaseSpec) { d.engine.Some? && NotEmpty(d.version) }

  predicate BucketWritten(b: BucketSpec) {
    && b.isPublic != Some(false)
    && (b.quota.Some? ==> b.quota.value.Literal? && b.quota.value.s != "")
  }

  predicate FunctionWritten(f: FunctionSpec) { f.runtime.Some? && NotEmpty(f.handler) }

  predicate CronWritten(c: CronSpec) { c.schedule.Some? && c.image.Some? && NotEmpty(c.command) }

  predicate RuleWritten(r: RuleSpec) { r.allow.Some? && r.protocol.Some? && NotEmpty(r.port) && r.cidr.Some? }

  predicate FirewallWritten(f: FirewallSpec) {
    f.defaultInbound.Some? && f.rules.Some? && forall r :: r in f.rules.value ==> RuleWritten(r)
  }

  ghost predicate BalancerWritten(names: seq<string>, b: BalancerSpec) {
    && b.port.Some? && NotEmpty(b.algorithm) && NotEmpty(b.domain) && b.autoHttps != Some(false)
    && b.targets.Some? && TargetsInOrder(names, b.targets.value)
  }

  ghost predicate All<T(!new)>(xs: Option<seq<T>>, p: T -> bool) { xs.Some? && forall x :: x in xs.value ==> p(x) }

  /** Everything that has a default is written out, nothing is written empty, and
      balancer targets are in order. */
  ghost predicate Written(b: Blueprint) {
    && b.project != "" && NotEmpty(b.region)
    && All(b.apps, AppWritten) && All(b.databases, DatabaseWritten) && All(b.buckets, BucketWritten)
    && All(b.functions, FunctionWritten) && All(b.cron, CronWritten) && All(b.firewalls, FirewallWritten)
    && b.loadBalancers.Some?
    && (forall lb :: lb in b.loadBalancers.value ==> BalancerWritten(Names(b.apps.value), lb))
  }

  lemma {:induction false} MapAllUnchanged<T>(xs: seq<T>, f: T -> T)
    ensures MapAll(xs, f) == xs <==> forall x :: x in xs ==> f(x) == x
    ensures |MapAll(xs, f)| == |xs|
  {
    if xs != [] {
      var front, last := xs[..|xs| - 1], xs[|xs| - 1];
      MapAllUnchanged(front, f);
      assert xs == front + [last];
      assert MapAll(xs, f) == xs <==> MapAll(front, f) == front && f(last) == last by {
        assert MapAll(xs, f)[..|front|] == MapAll(front, f) && MapAll(xs, f)[|front|] == f(last);
      }
    }
  }

  lemma AppUnchanged(a: AppSpec)
    ensures NormalApp(a) == a <==> AppWritten(a)
  {
    NonEmptyMembers(Or(a.domains, []));
  }

  lemma FlagUnchanged(o: Option<bool>)
    ensures IfTrue(o) == o <==> o != Some(false)
  {
    if o.Some? {
      assert o.value == true || o.value == false;
    }
  }

  lemma FirewallUnchanged(f: FirewallSpec)
    ensures NormalFirewall(f) == f <==> FirewallWritten(f)
  {
    MapAllUnchanged(Or(f.rules, []), NormalRule);
  }

  lemma BalancerUnchanged(names: seq<string>, b: BalancerSpec)
    ensures NormalBalancer(names, b) == b <==> BalancerWritten(names, b)
  {
    TargetsUnchangedExactly(names, Or(b.targets, []));
    hide TargetsInOrder, NormalTargets;
    assert OrNone(b.algorithm) == b.algorithm <==> NotEmpty(b.algorithm);
    assert OrNone(b.domain) == b.domain <==> NotEmpty(b.domain);
    FlagUnchanged(b.autoHttps);
    assert Some(Or(b.port, 80)) == b.port <==> b.port.Some?;
  }

  lemma {:induction false} AppsUnchanged(apps: seq<AppSpec>)
    ensures NormalApps(apps) == apps <==> forall a :: a in apps ==> AppWritten(a)
  {
    hide AppWritten, NormalApp;
    if apps != [] {
      var front, last := apps[..|apps| - 1], apps[|apps| - 1];
      AppsUnchanged(front);
      AppUnchanged(last);
      assert apps == front + [last];
      LastOfTwo(NormalApps(front), front, NormalApp(last), last);
    }
  }

  lemma LastOfTwo<T>(a: seq<T>, b: seq<T>, x: T, y: T)
    ensures a + [x] == b + [y] <==> a == b && x == y
  {
    if a + [x] == b + [y] {
      assert (a + [x])[|a|] == x && (b + [y])[|b|] == y;
      assert a == (a + [x])[..|a|] && b == (b + [y])[..|b|];
    }
  }

  lemma {:induction false} BalancersUnchanged(names: seq<string>, bs: seq<BalancerSpec>)
    ensures NormalBalancers(names, bs) == bs <==> forall b :: b in bs ==> BalancerWritten(names, b)
  {
    hide BalancerWritten, NormalBalancer;
    if bs != [] {
      var front, last := bs[..|bs| - 1], bs[|bs| - 1];
      BalancersUnchanged(names, front);
      BalancerUnchanged(names, last);
      assert bs == front + [last];
      LastOfTwo(NormalBalancers(names, front), front, NormalBalancer(names, last), last);
    }
  }

  /** A blueprint survives unchanged exactly when it is written out. */
  lemma SurvivesExactly(clock: nat -> string, ids: nat, b: Blueprint)
    ensures StateToBlueprint(StateOf(b, Layout(clock, ids, b))) == b <==> Written(b)
  {
    hide NormalApps, NormalBalancers, Names, AppWritten, BalancerWritten, StateToBlueprint, Layout, MapAll,
      NormalDatabase, NormalBucket, NormalFunction, NormalCron, NormalFirewall, DatabaseWritten, BucketWritten,
      FunctionWritten, CronWritten, FirewallWritten;
    BuilderRoundTrip(clock, ids, b);
    AppsUnchanged(Or(b.apps, []));
    BalancersUnchanged(Names(Or(b.apps, [])), Or(b.loadBalancers, []));
    SimpleUnchanged(b);
  }

  lemma SimpleUnchanged(b: Blueprint)
    ensures SimpleNormal(b).databases == Or(b.databases, []) <==>
      forall x :: x in Or(b.databases, []) ==> DatabaseWritten(x)
    ensures SimpleNormal(b).buckets == Or(b.buckets, []) <==>
      forall x :: x in Or(b.buckets, []) ==> BucketWritten(x)
    ensures SimpleNormal(b).functions == Or(b.functions, []) <==>
      forall x :: x in Or(b.functions, []) ==> FunctionWritten(x)
    ensures SimpleNormal(b).cron == Or(b.cron, []) <==> forall x :: x in Or(b.cron, []) ==> CronWritten(x)
    ensures SimpleNormal(b).firewalls == Or(b.firewalls, []) <==>
      forall x :: x in Or(b.firewalls, []) ==> FirewallWritten(x)
  {
    hide MapAll, NormalFirewall, FirewallWritten;
    MapAllUnchanged(Or(b.databases, []), NormalDatabase);
    MapAllUnchanged(Or(b.buckets, []), NormalBucket);
    MapAllUnchanged(Or(b.functions, []), NormalFunction);
    MapAllUnchanged(Or(b.cron, []), NormalCron);
    MapAllUnchanged(Or(b.firewalls, []), NormalFirewall);
    forall x: BucketSpec ensures NormalBucket(x) == x <==> BucketWritten(x) {
      FlagUnchanged(x.isPublic);
    }
    forall f: FirewallSpec ensures NormalFirewall(f) == f <==> FirewallWritten(f) { FirewallUnchanged(f); }
  }

  // ---------------------------------------------------------- a second time around

  lemma {:induction false} MapAllMembers<T, U>(xs: seq<T>, f: T -> U)
    ensures forall y :: y in MapAll(xs, f) ==> exists x :: x in xs && f(x) == y
  {
    if xs != [] {
      var front := xs[..|xs| - 1];
      MapAllMembers(front, f);
      forall y | y in MapAll(xs, f) ensures exists x :: x in xs && f(x) == y {
        if y in MapAll(front, f) {
          var x :| x in front && f(x) == y;
          assert x in xs;
        } else {
          assert xs[|xs| - 1] in xs;
        }
      }
    }
  }

  lemma FirewallIsWritten(f: FirewallSpec)
    ensures FirewallWritten(NormalFirewall(f))
  {
    MapAllMembers(Or(f.rules, []), NormalRule);
  }

  lemma AppIsWritten(a: AppSpec)
    ensures AppWritten(NormalApp(a))
  {
    NonEmptyMembers(Or(a.domains, []));
  }

  lemma {:induction false} AppsAreWritten(apps: seq<AppSpec>)
    ensures forall a :: a in NormalApps(apps) ==> AppWritten(a)
    ensures Names(NormalApps(apps)) == Names(apps)
  {
    hide AppWritten;
    if apps != [] {
      var front, last := NormalApps(apps[..|apps| - 1]), NormalApp(apps[|apps| - 1]);
      AppsAreWritten(apps[..|apps| - 1]);
      AppIsWritten(apps[|apps| - 1]);
      assert (front + [last])[..|front|] == front;
    }
  }

  lemma BalancerIsWritten(names: seq<string>, b: BalancerSpec)
    ensures BalancerWritten(names, NormalBalancer(names, b))
  {
    hide TargetsInOrder, NormalTargets;
    NormalIsInOrder(names, Or(b.targets, []));
  }

  lemma {:induction false} BalancersAreWritten(names: seq<string>, bs: seq<BalancerSpec>)
    ensures forall b :: b in NormalBalancers(names, bs) ==> BalancerWritten(names, b)
  {
    hide BalancerWritten, NormalBalancer;
    if bs != [] {
      BalancersAreWritten(names, bs[..|bs| - 1]);
      BalancerIsWritten(names, bs[|bs| - 1]);
    }
  }

  lemma NormalIsWritten(b: Blueprint)
    ensures Written(Normal(b))
  {
    hide AppWritten, BalancerWritten, FirewallWritten, NormalFirewall, MapAll, NormalApps, NormalBalancers, Names;
    AppsAreWritten(Or(b.apps, []));
    BalancersAreWritten(Names(Or(b.apps, [])), Or(b.loadBalancers, []));
    MapAllMembers(Or(b.databases, []), NormalDatabase);
    MapAllMembers(Or(b.buckets, []), NormalBucket);
    MapAllMembers(Or(b.functions, []), NormalFunction);
    MapAllMembers(Or(b.cron, []), NormalCron);
    MapAllMembers(Or(b.firewalls, []), NormalFirewall);
    forall f: FirewallSpec ensures FirewallWritten(NormalFirewall(f)) { FirewallIsWritten(f); }
    NumbersAreWritten(b);
  }

  lemma NumbersAreWritten(b: Blueprint)
    ensures forall q: BucketSpec :: BucketWritten(NormalBucket(q))
  {
    forall q: BucketSpec ensures BucketWritten(NormalBucket(q)) {
      if q.quota.Some? && q.quota.value.Number? { assert Text.IntText(q.quota.value.n) != ""; }
    }
  }

  /** Drawing and reading back a second time changes nothing any more, for every
      blueprint. */
  lemma SecondTimeUnchanged(clock: nat -> string, clock': nat -> string, ids: nat, ids': nat, b: Blueprint)
    ensures var once := StateToBlueprint(StateOf(b, Layout(clock, ids, b)));
      StateToBlueprint(StateOf(once, Layout(clock', ids', once))) == once
  {
    hide StateToBlueprint, StateOf, Layout, Normal, Written;
    BuilderRoundTrip(clock, ids, b);
    NormalIsWritten(b);
    SurvivesExactly(clock', ids', Normal(b));
  }

  // --------------------------------------------------------------- the positions

  /** The columns of the canvas: domains, balancers, what runs, what is used. */
  function Column(b: Body): int {
    if b.Domain? then 60 else if b.Balancer? then 300 else if b.App? || b.Function? || b.Cron? then 540 else 780
  }

  function KindName(b: Body): string {
    if b.App? then "app" else if b.Database? then "database" else if b.Bucket? then "bucket"
    else if b.Function? then "function" else if b.Cron? then "cron" else if b.Firewall? then "firewall"
    else if b.Balancer? then "loadBalancer" else "domain"
  }

  /** How many of the nodes stand in the column at `x`. */
  function InColumn(nodes: seq<Node>, x: int): nat {
    if nodes == [] then 0
    else InColumn(nodes[..|nodes| - 1], x) + (if nodes[|nodes| - 1].x == x then 1 else 0)
  }

  /** The node stands in its kind's column, one row below the last one there, and its id
      names its kind. */
  predicate Stands(nodes: seq<Node>, i: nat)
    requires i < |nodes|
  {
    var n := nodes[i];
    n.x == Column(n.body) && n.y == 40 + 130 * InColumn(nodes[..i], n.x) && KindName(n.body) + "-" <= n.id
  }

  /** Every node does, and the rows taken are the nodes counted. */
  ghost predicate Placed(c: Canvas) {
    && (forall i :: 0 <= i < |c.nodes| ==> Stands(c.nodes, i))
    && (forall lane :: RowsIn(c, lane) == InColumn(c.nodes, 60 + lane * 240))
  }

  lemma PushPlaced(clock: nat -> string, c: Canvas, name: string, body: Body)
    requires Placed(c)
    ensures Placed(Push(clock, c, name, body))
  {
    hide NewId, Column, Lane, KindName, Prefix;
    var c', n := Push(clock, c, name, body), |c.nodes|;
    assert c'.nodes[..n] == c.nodes;
    forall i | 0 <= i < |c'.nodes| ensures Stands(c'.nodes, i) {
      if i < n {
        assert Stands(c.nodes, i);
        assert c'.nodes[..i] == c.nodes[..i] && c'.nodes[i] == c.nodes[i];
      } else {
        KindsPlace(clock, body, c.ids + 1);
      }
    }
    forall lane ensures RowsIn(c', lane) == InColumn(c'.nodes, 60 + lane * 240) {
      assert RowsIn(c, lane) == InColumn(c.nodes, 60 + lane * 240);
    }
  }

  lemma KindsPlace(clock: nat -> string, body: Body, n: nat)
    ensures 60 + Lane(body) * 240 == Column(body)
    ensures KindName(body) + "-" <= NewId(clock, Prefix(body), n)
  {
    var start, whole := KindName(body) + "-", NewId(clock, Prefix(body), n);
    assert whole == start + (clock(n) + "-" + Text.NatText(n));
  }

  lemma {:induction false} DomainsPlaced(clock: nat -> string, c: Canvas, owner: string, hosts: seq<string>)
    requires Placed(c)
    ensures Placed(AddDomains(clock, c, owner, hosts))
  {
    hide NewId;
    if hosts != [] {
      var front, host := AddDomains(clock, c, owner, hosts[..|hosts| - 1]), hosts[|hosts| - 1];
      DomainsPlaced(clock, c, owner, hosts[..|hosts| - 1]);
      PushPlaced(clock, front, host, Domain(Some(host)));
      SamePlaces(Push(clock, front, host, Domain(Some(host))), AddDomains(clock, c, owner, hosts));
    }
  }

  lemma SamePlaces(c: Canvas, c': Canvas)
    requires Placed(c) && c'.nodes == c.nodes && c'.rows == c.rows
    ensures Placed(c')
  {
    assert forall lane :: RowsIn(c', lane) == RowsIn(c, lane);
  }

  lemma {:induction false} AppsPlaced(clock: nat -> string, c: Canvas, apps: seq<AppSpec>)
    requires Placed(c)
    ensures Placed(AddApps(clock, c, apps))
  {
    hide Placed, Push;
    if apps != [] {
      var front, a := AddApps(clock, c, apps[..|apps| - 1]), apps[|apps| - 1];
      AppsPlaced(clock, c, apps[..|apps| - 1]);
      PushPlaced(clock, front, a.name, AppBody(a));
      PushesOne(clock, front, a.name, AppBody(a));
      var c' := Push(clock, front, a.name, AppBody(a));
      DomainsPlaced(clock, c', LastId(c'), Or(a.domains, []));
    }
  }

  lemma PushesOne(clock: nat -> string, c: Canvas, name: string, body: Body)
    ensures Push(clock, c, name, body).nodes != []
  {}

  lemma {:induction false} AllPlaced<T>(clock: nat -> string, c: Canvas, xs: seq<T>, name: T -> string, body: T -> Body)
    requires Placed(c)
    ensures Placed(AddAll(clock, c, xs, name, body))
  {
    hide Placed, Push;
    if xs != [] {
      AllPlaced(clock, c, xs[..|xs| - 1], name, body);
      var x := xs[|xs| - 1];
      PushPlaced(clock, AddAll(clock, c, xs[..|xs| - 1], name, body), name(x), body(x));
    }
  }

  lemma {:induction false} LinksPlaceNothing(
    clock: nat -> string, c: Canvas, from: string, apps: map<string, string>, targets: seq<string>)
    ensures var c' := LinkTargets(clock, c, from, apps, targets); c'.nodes == c.nodes && c'.rows == c.rows
  {
    if targets != [] { LinksPlaceNothing(clock, c, from, apps, targets[..|targets| - 1]); }
  }

  lemma {:induction false} BalancersPlaced(
    clock: nat -> string, c: Canvas, apps: map<string, string>, bs: seq<BalancerSpec>)
    requires Placed(c)
    ensures Placed(AddBalancers(clock, c, apps, bs))
  {
    hide Placed, Push;
    if bs != [] {
      var front, b := AddBalancers(clock, c, apps, bs[..|bs| - 1]), bs[|bs| - 1];
      BalancersPlaced(clock, c, apps, bs[..|bs| - 1]);
      PushPlaced(clock, front, b.name, BalancerBody(b, apps));
      PushesOne(clock, front, b.name, BalancerBody(b, apps));
      var c' := Push(clock, front, b.name, BalancerBody(b, apps));
      LinksPlaceNothing(clock, c', LastId(c'), apps, Or(b.targets, []));
      SamePlaces(c', AddBalancer(clock, front, apps, b));
    }
  }

  /** Every node of a laid-out blueprint stands in its kind's column, below those of that
      column that were made before it, and its id names its kind. */
  lemma EveryNodeStands(clock: nat -> string, ids: nat, b: Blueprint, i: nat)
    requires i < |Layout(clock, ids, b).nodes|
    ensures Stands(Layout(clock, ids, b).nodes, i)
  {
    var c0 := Canvas([], [], map[], ids);
    assert Placed(c0);
    hide AddApps, AddAll, AddBalancers, AppByName;
    var c1 := AddApps(clock, c0, Or(b.apps, []));
    var c2 := AddAll(clock, c1, Or(b.databases, []), DatabaseName, DatabaseBody);
    var c3 := AddAll(clock, c2, Or(b.buckets, []), BucketName, BucketBody);
    var c4 := AddAll(clock, c3, Or(b.functions, []), FunctionName, FunctionBody);
    var c5 := AddAll(clock, c4, Or(b.cron, []), CronName, CronBody);
    AppsPlaced(clock, c0, Or(b.apps, []));
    AllPlaced(clock, c1, Or(b.databases, []), DatabaseName, DatabaseBody);
    AllPlaced(clock, c2, Or(b.buckets, []), BucketName, BucketBody);
    AllPlaced(clock, c3, Or(b.functions, []), FunctionName, FunctionBody);
    AllPlaced(clock, c4, Or(b.cron, []), CronName, CronBody);
    AllPlaced(clock, c5, Or(b.firewalls, []), FirewallName, FirewallBody);
    BalancersPlaced(clock, Rest(clock, c1, b), AppByName(c1.nodes), Or(b.loadBalancers, []));
  }

  lemma {:induction false} ColumnGrows(nodes: seq<Node>, i: nat, j: nat)
    requires i < j <= |nodes|
    ensures InColumn(nodes[..i], nodes[i].x) < InColumn(nodes[..j], nodes[i].x)
  {
    assert nodes[..j][..j - 1] == nodes[..j - 1];
    if i < j - 1 { ColumnGrows(nodes, i, j - 1); }
  }

  /** So no two nodes share a position. */
  lemma PositionsDiffer(clock: nat -> string, ids: nat, b: Blueprint, i: nat, j: nat)
    requires i < j < |Layout(clock, ids, b).nodes|
    ensures var n := Layout(clock, ids, b).nodes; n[i].x != n[j].x || n[i].y != n[j].y
  {
    hide Layout, KindName, Column;
    EveryNodeStands(clock, ids, b, i);
    EveryNodeStands(clock, ids, b, j);
    ColumnGrows(Layout(clock, ids, b).nodes, i, j);
  }

  // ------------------------------------------------------------------ the code

  /** The module with its id counter. */
  class Editor {
    var idSeq: nat
    const clock: nat -> string

    constructor (clock: nat -> string)
      ensures idSeq == 0 && this.clock == clock
    {
      idSeq := 0;
      this.clock := clock;
    }

    method BuilderId(prefix: string) returns (id: string)
      modifies this
      ensures idSeq == old(idSeq) + 1 && id == NewId(clock, prefix, idSeq)
    {
      idSeq := idSeq + 1;
      id := NewId(clock, prefix, idSeq);
    }

    /** `place`, then the node is pushed. */
    method PushNode(c: Canvas, name: string, body: Body) returns (c': Canvas)
      requires c.ids == idSeq
      modifies this
      ensures c' == Push(clock, c, name, body) && idSeq == c'.ids
    {
      var lane := Lane(body);
      var row := if lane in c.rows then c.rows[lane] else 0;
      var id := BuilderId(Prefix(body));
      c' := Canvas(c.nodes + [Node(id, 60 + lane * 240, 40 + row * 130, name, body)], c.edges,
                   c.rows[lane := row + 1], idSeq);
    }

    method PushEdge(c: Canvas, from: string, to: string) returns (c': Canvas)
      requires c.ids == idSeq
      modifies this
      ensures c' == Link(clock, c, from, to) && idSeq == c'.ids
    {
      var id := BuilderId("e");
      c' := c.(edges := c.edges + [Edge(id, from, to)], ids := idSeq);
    }

    method PushApp(c: Canvas, a: AppSpec) returns (c': Canvas)
      requires c.ids == idSeq
      modifies this
      ensures c' == AddApp(clock, c, a) && idSeq == c'.ids
    {
      hide Push, Link;
      PushesOne(clock, c, a.name, AppBody(a));
      c' := PushNode(c, a.name, AppBody(a));
      ghost var c1 := c';
      var owner, hosts := LastId(c'), Or(a.domains, []);
      for i := 0 to |hosts|
        invariant c' == AddDomains(clock, c1, owner, hosts[..i]) && idSeq == c'.ids
      {
        assert hosts[..i + 1][..i] == hosts[..i];
        PushesOne(clock, c', hosts[i], Domain(Some(hosts[i])));
        c' := PushNode(c', hosts[i], Domain(Some(hosts[i])));
        c' := PushEdge(c', LastId(c'), owner);
      }
      assert hosts[..|hosts|] == hosts;
    }

    method PushAll<T>(c: Canvas, xs: seq<T>, name: T -> string, body: T -> Body) returns (c': Canvas)
      requires c.ids == idSeq
      modifies this
      ensures c' == AddAll(clock, c, xs, name, body) && idSeq == c'.ids
    {
      hide Push;
      c' := c;
      for i := 0 to |xs|
        invariant c' == AddAll(clock, c, xs[..i], name, body) && idSeq == c'.ids
      {
        assert xs[..i + 1][..i] == xs[..i];
        c' := PushNode(c', name(xs[i]), body(xs[i]));
      }
      assert xs[..|xs|] == xs;
    }

    method PushBalancer(c: Canvas, apps: map<string, string>, b: BalancerSpec) returns (c': Canvas)
      requires c.ids == idSeq
      modifies this
      ensures c' == AddBalancer(clock, c, apps, b) && idSeq == c'.ids
    {
      hide Push, Link;
      PushesOne(clock, c, b.name, BalancerBody(b, apps));
      c' := PushNode(c, b.name, BalancerBody(b, apps));
      ghost var c1 := c';
      var from, ts := LastId(c'), Or(b.targets, []);
      for i := 0 to |ts|
        invariant c' == LinkTargets(clock, c1, from, apps, ts[..i]) && idSeq == c'.ids
      {
        assert ts[..i + 1][..i] == ts[..i];
        if ts[i] in apps { c' := PushEdge(c', from, apps[ts[i]]); }
      }
      assert ts[..|ts|] == ts;
    }

    /** `blueprintToState` */
    method BlueprintToState(b: Blueprint) returns (s: State)
      modifies this
      ensures s == StateOf(b, Layout(clock, old(idSeq), b))
      ensures StateToBlueprint(s) == Normal(b)
    {
      hide AddApp, AddBalancer, AddAll, StateToBlueprint, Normal, AppByName;
      var c := Canvas([], [], map[], idSeq);
      ghost var start := c;
      var apps, balancers := Or(b.apps, []), Or(b.loadBalancers, []);
      for i := 0 to |apps|
        invariant c == AddApps(clock, start, apps[..i]) && idSeq == c.ids
      {
        assert apps[..i + 1][..i] == apps[..i];
        c := PushApp(c, apps[i]);
      }
      assert apps[..|apps|] == apps;
      var byName := AppByName(c.nodes);
      c := PushAll(c, Or(b.databases, []), DatabaseName, DatabaseBody);
      c := PushAll(c, Or(b.buckets, []), BucketName, BucketBody);
      c := PushAll(c, Or(b.functions, []), FunctionName, FunctionBody);
      c := PushAll(c, Or(b.cron, []), CronName, CronBody);
      c := PushAll(c, Or(b.firewalls, []), FirewallName, FirewallBody);
      ghost var rest := c;
      for i := 0 to |balancers|
        invariant c == AddBalancers(clock, rest, byName, balancers[..i]) && idSeq == c.ids
      {
        assert balancers[..i + 1][..i] == balancers[..i];
        c := PushBalancer(c, byName, balancers[i]);
      }
      assert balancers[..|balancers|] == balancers;
      s := State(b.project, b.region, c.nodes, c.edges);
      BuilderRoundTrip(clock, old(idSeq), b);
    }
  }
}
