/** Which way the edges point. */
module BuilderEdges {
  // The edges of a laid-out blueprint, each from a domain or a balancer to an app. The
  // way back reads them in either direction, so its laws do not say.

  import opened Options
  import opened Builder
  import opened BuilderGraph

  predicate AppId(nodes: seq<Node>, id: string) {
    exists i :: 0 <= i < |nodes| && nodes[i].id == id && nodes[i].body.App?
  }

  predicate SourceId(nodes: seq<Node>, id: string) {
    exists i :: 0 <= i < |nodes| && nodes[i].id == id && (nodes[i].body.Domain? || nodes[i].body.Balancer?)
  }

  ghost predicate Points(c: Canvas) {
    forall e :: e in c.edges ==> SourceId(c.nodes, e.from) && AppId(c.nodes, e.to)
  }

  lemma IdsStay(nodes: seq<Node>, more: seq<Node>, id: string)
    ensures AppId(nodes, id) ==> AppId(nodes + more, id)
    ensures SourceId(nodes, id) ==> SourceId(nodes + more, id)
  {
    assert forall i :: 0 <= i < |nodes| ==> (nodes + more)[i] == nodes[i];
  }

  /** What a push keeps and adds. */
  lemma PushPoints(clock: nat -> string, c: Canvas, name: string, body: Body)
    requires Points(c)
    ensures var c' := Push(clock, c, name, body);
      && Points(c') && c'.nodes != [] && c.nodes <= c'.nodes
      && (forall id :: AppId(c.nodes, id) ==> AppId(c'.nodes, id))
      && (body.App? ==> AppId(c'.nodes, LastId(c')))
      && (body.Domain? || body.Balancer? ==> SourceId(c'.nodes, LastId(c')))
  {
    hide AppId, SourceId, NewId, Lane, RowsIn, Prefix;
    var c' := Push(clock, c, name, body);
    var n := c'.nodes[|c.nodes|];
    forall id
      ensures (AppId(c.nodes, id) ==> AppId(c'.nodes, id)) && (SourceId(c.nodes, id) ==> SourceId(c'.nodes, id))
    {
      IdsStay(c.nodes, [n], id);
    }
    LastIs(c.nodes, n);
  }

  lemma LastIs(nodes: seq<Node>, n: Node)
    ensures n.body.App? ==> AppId(nodes + [n], n.id)
    ensures n.body.Domain? || n.body.Balancer? ==> SourceId(nodes + [n], n.id)
  {
    assert (nodes + [n])[|nodes|] == n;
  }

  lemma LinkPoints(clock: nat -> string, c: Canvas, from: string, to: string)
    requires Points(c) && SourceId(c.nodes, from) && AppId(c.nodes, to)
    ensures Points(Link(clock, c, from, to)) && Link(clock, c, from, to).nodes == c.nodes
  {
    hide AppId, SourceId, NewId;
  }

  lemma {:induction false} DomainsPoint(clock: nat -> string, c: Canvas, owner: string, hosts: seq<string>)
    requires Points(c) && AppId(c.nodes, owner)
    ensures var c' := AddDomains(clock, c, owner, hosts); Points(c') && AppId(c'.nodes, owner)
    ensures forall id :: AppId(c.nodes, id) ==> AppId(AddDomains(clock, c, owner, hosts).nodes, id)
  {
    hide AppId, SourceId, Points, Push, Link;
    if hosts != [] {
      var front, host := AddDomains(clock, c, owner, hosts[..|hosts| - 1]), hosts[|hosts| - 1];
      DomainsPoint(clock, c, owner, hosts[..|hosts| - 1]);
      PushPoints(clock, front, host, Domain(Some(host)));
      var c' := Push(clock, front, host, Domain(Some(host)));
      LinkPoints(clock, c', LastId(c'), owner);
    }
  }

  lemma {:induction false} AppsPoint(clock: nat -> string, c: Canvas, apps: seq<AppSpec>)
    requires Points(c)
    ensures Points(AddApps(clock, c, apps))
  {
    hide AppId, SourceId, Points, Push, AddDomains;
    if apps != [] {
      var front, a := AddApps(clock, c, apps[..|apps| - 1]), apps[|apps| - 1];
      AppsPoint(clock, c, apps[..|apps| - 1]);
      PushPoints(clock, front, a.name, AppBody(a));
      var c' := Push(clock, front, a.name, AppBody(a));
      DomainsPoint(clock, c', LastId(c'), Or(a.domains, []));
    }
  }

  lemma {:induction false} AllPoint<T>(clock: nat -> string, c: Canvas, xs: seq<T>, name: T -> string, body: T -> Body)
    requires Points(c)
    ensures Points(AddAll(clock, c, xs, name, body))
    ensures forall id :: AppId(c.nodes, id) ==> AppId(AddAll(clock, c, xs, name, body).nodes, id)
  {
    hide AppId, SourceId, Points, Push;
    if xs != [] {
      AllPoint(clock, c, xs[..|xs| - 1], name, body);
      var x := xs[|xs| - 1];
      PushPoints(clock, AddAll(clock, c, xs[..|xs| - 1], name, body), name(x), body(x));
    }
  }

  lemma {:induction false} TargetsPoint(
    clock: nat -> string, c: Canvas, from: string, apps: map<string, string>, targets: seq<string>)
    requires Points(c) && SourceId(c.nodes, from) && forall t :: t in apps ==> AppId(c.nodes, apps[t])
    ensures var c' := LinkTargets(clock, c, from, apps, targets); Points(c') && c'.nodes == c.nodes
  {
    hide AppId, SourceId, Points, Link;
    if targets != [] {
      var t, front := targets[|targets| - 1], LinkTargets(clock, c, from, apps, targets[..|targets| - 1]);
      TargetsPoint(clock, c, from, apps, targets[..|targets| - 1]);
      if t in apps { LinkPoints(clock, front, from, apps[t]); }
    }
  }

  lemma {:induction false} BalancersPoint(
    clock: nat -> string, c: Canvas, apps: map<string, string>, bs: seq<BalancerSpec>)
    requires Points(c) && forall t :: t in apps ==> AppId(c.nodes, apps[t])
    ensures var c' := AddBalancers(clock, c, apps, bs);
      Points(c') && forall t :: t in apps ==> AppId(c'.nodes, apps[t])
  {
    hide AppId, SourceId, Points, Push, LinkTargets;
    if bs != [] {
      var front, b := AddBalancers(clock, c, apps, bs[..|bs| - 1]), bs[|bs| - 1];
      BalancersPoint(clock, c, apps, bs[..|bs| - 1]);
      PushPoints(clock, front, b.name, BalancerBody(b, apps));
      var c' := Push(clock, front, b.name, BalancerBody(b, apps));
      TargetsPoint(clock, c', LastId(c'), apps, Or(b.targets, []));
    }
  }

  lemma NamedAreApps(nodes: seq<Node>)
    ensures forall t :: t in AppByName(nodes) ==> AppId(nodes, AppByName(nodes)[t])
  {
    AppByNameIds(nodes);
  }

  /** For every blueprint: each edge that is drawn leaves a domain or a balancer and
      arrives at an app. */
  lemma EdgesPointAtApps(clock: nat -> string, ids: nat, b: Blueprint)
    ensures var c := Layout(clock, ids, b);
      forall e :: e in c.edges ==> SourceId(c.nodes, e.from) && AppId(c.nodes, e.to)
  {
    hide AppId, SourceId, AddApps, AddAll, AddBalancers, AppByName;
    var c0 := Canvas([], [], map[], ids);
    var c1 := AddApps(clock, c0, Or(b.apps, []));
    var c2 := AddAll(clock, c1, Or(b.databases, []), DatabaseName, DatabaseBody);
    var c3 := AddAll(clock, c2, Or(b.buckets, []), BucketName, BucketBody);
    var c4 := AddAll(clock, c3, Or(b.functions, []), FunctionName, FunctionBody);
    var c5 := AddAll(clock, c4, Or(b.cron, []), CronName, CronBody);
    AppsPoint(clock, c0, Or(b.apps, []));
    NamedAreApps(c1.nodes);
    AllPoint(clock, c1, Or(b.databases, []), DatabaseName, DatabaseBody);
    AllPoint(clock, c2, Or(b.buckets, []), BucketName, BucketBody);
    AllPoint(clock, c3, Or(b.functions, []), FunctionName, FunctionBody);
    AllPoint(clock, c4, Or(b.cron, []), CronName, CronBody);
    AllPoint(clock, c5, Or(b.firewalls, []), FirewallName, FirewallBody);
    BalancersPoint(clock, Rest(clock, c1, b), AppByName(c1.nodes), Or(b.loadBalancers, []));
  }
}
